/** What a clean pass has filed, exactly: the tracks in the ledger and in the
    review queue after it, its ledger rows, and its counts. */
module CleanFiling {
  import opened Common
  import opened Difm
  import opened DifmWalk
  import opened World
  import opened Pass
  import opened NoLoss
  import opened PlaylistSafety
  import opened Filing

  // ---------- nobody approves meanwhile ----------

  predicate ApprovesNothing(os: seq<Outside>) {
    forall o :: o in os ==> !o.Approve?
  }

  ghost predicate NobodyApproves(s: PassScript) {
    && ApprovesNothing(s.afterWalk) && ApprovesNothing(s.beforeReread) && ApprovesNothing(s.beforeCommit)
    && forall i :: ApprovesNothing(s.likes(i).outside)
  }

  lemma {:induction false} OthersKeepLedger(w: World, os: seq<Outside>)
    requires ApprovesNothing(os)
    ensures ApplyAll(w, os).ledger == w.ledger && ApplyAll(w, os).watermark == w.watermark
    decreases |os|
  {
    if os != [] {
      OthersKeepLedger(Apply(w, os[0]), os[1..]);
    }
  }

  // ---------- which likes are filed where ----------

  /** The likes that go to the review queue, by place; known are the tracks in
      the ledger. */
  predicate Short(likes: seq<Track>, scripts: nat -> LikeScript, th: Thresholds, known: set<int>, i: nat) {
    && i < |likes|
    && (likes[i].skip || (likes[i].trackId !in known && FallsShort(scripts(i), likes[i], th)))
  }

  predicate Matched(likes: seq<Track>, scripts: nat -> LikeScript, th: Thresholds, known: set<int>, i: nat) {
    i < |likes| && !likes[i].skip && likes[i].trackId !in known && Matches(scripts(i), likes[i], th)
  }

  function Skips(likes: seq<Track>): set<int> {
    set i | 0 <= i < |likes| && likes[i].skip
  }

  function Shorts(likes: seq<Track>, scripts: nat -> LikeScript, th: Thresholds, known: set<int>): set<int> {
    set i | 0 <= i < |likes| && !likes[i].skip && Short(likes, scripts, th, known, i)
  }

  ghost predicate ShortTrack(likes: seq<Track>, scripts: nat -> LikeScript, th: Thresholds, known: set<int>, id: int) {
    exists i: nat :: Short(likes, scripts, th, known, i) && likes[i].trackId == id
  }

  ghost predicate MatchedTrack(likes: seq<Track>, scripts: nat -> LikeScript, th: Thresholds, known: set<int>, id: int)
  {
    exists i: nat :: Matched(likes, scripts, th, known, i) && likes[i].trackId == id
  }

  ghost predicate RecordsSome(row: LedgerRow, id: int, likes: seq<Track>, scripts: nat -> LikeScript, th: Thresholds,
                              known: set<int>)
  {
    exists i: nat :: Matched(likes, scripts, th, known, i) && likes[i].trackId == id
                     && Records(row, likes[i], scripts(i), th)
  }

  lemma ShortTrackOfLonger(front: seq<Track>, last: Track, scripts: nat -> LikeScript, th: Thresholds,
                           known: set<int>, id: int)
    ensures ShortTrack(front + [last], scripts, th, known, id) <==>
            ShortTrack(front, scripts, th, known, id)
            || (last.trackId == id && Short(front + [last], scripts, th, known, |front|))
  {
    var likes := front + [last];
    assert forall i: nat :: i < |front| ==> likes[i] == front[i];
    if ShortTrack(front, scripts, th, known, id) {
      var i: nat :| Short(front, scripts, th, known, i) && front[i].trackId == id;
      assert Short(likes, scripts, th, known, i);
    }
    if ShortTrack(likes, scripts, th, known, id) {
      var i: nat :| Short(likes, scripts, th, known, i) && likes[i].trackId == id;
      assert i < |front| ==> Short(front, scripts, th, known, i);
    }
  }

  lemma MatchedTrackOfLonger(front: seq<Track>, last: Track, scripts: nat -> LikeScript, th: Thresholds,
                             known: set<int>, id: int)
    ensures MatchedTrack(front + [last], scripts, th, known, id) <==>
            MatchedTrack(front, scripts, th, known, id)
            || (last.trackId == id && Matched(front + [last], scripts, th, known, |front|))
  {
    var likes := front + [last];
    assert forall i: nat :: i < |front| ==> likes[i] == front[i];
    if MatchedTrack(front, scripts, th, known, id) {
      var i: nat :| Matched(front, scripts, th, known, i) && front[i].trackId == id;
      assert Matched(likes, scripts, th, known, i);
    }
    if MatchedTrack(likes, scripts, th, known, id) {
      var i: nat :| Matched(likes, scripts, th, known, i) && likes[i].trackId == id;
      assert i < |front| ==> Matched(front, scripts, th, known, i);
    }
  }

  lemma SkipsOfLonger(front: seq<Track>, last: Track)
    ensures |Skips(front + [last])| == |Skips(front)| + if last.skip then 1 else 0
  {
    var skips := Skips(front);
    assert Skips(front + [last]) == if last.skip then skips + {|front|} else skips;
  }

  lemma ShortStays(front: seq<Track>, last: Track, scripts: nat -> LikeScript, th: Thresholds, known: set<int>,
                   i: nat)
    requires i < |front|
    ensures Short(front + [last], scripts, th, known, i) <==> Short(front, scripts, th, known, i)
  {
  }

  lemma ShortsOfLonger(front: seq<Track>, last: Track, scripts: nat -> LikeScript, th: Thresholds, known: set<int>)
    ensures |Shorts(front + [last], scripts, th, known)| ==
            |Shorts(front, scripts, th, known)|
            + if !last.skip && Short(front + [last], scripts, th, known, |front|) then 1 else 0
  {
    var shorts, longer, n := Shorts(front, scripts, th, known), Shorts(front + [last], scripts, th, known), |front|;
    forall i: nat | i < n
      ensures i in longer <==> i in shorts
    {
      ShortStays(front, last, scripts, th, known, i);
    }
    if n in longer {
      assert longer == shorts + {n};
    } else {
      assert longer == shorts;
    }
  }

  lemma RecordedOfLonger(row: LedgerRow, id: int, front: seq<Track>, last: Track, scripts: nat -> LikeScript,
                         th: Thresholds, known: set<int>)
    ensures RecordsSome(row, id, front, scripts, th, known) ==>
              RecordsSome(row, id, front + [last], scripts, th, known)
    ensures last.trackId == id && Matched(front + [last], scripts, th, known, |front|)
            && Records(row, last, scripts(|front|), th) ==>
              RecordsSome(row, id, front + [last], scripts, th, known)
  {
    var likes := front + [last];
    assert likes[|front|] == last;
    if RecordsSome(row, id, front, scripts, th, known) {
      var i: nat :| Matched(front, scripts, th, known, i) && front[i].trackId == id
                    && Records(row, front[i], scripts(i), th);
      assert likes[i] == front[i] && Matched(likes, scripts, th, known, i);
    }
  }

  // ---------- one like of a pass still clean ----------

  predicate FiledStep(queue: map<int, ReviewRow>, loc: Locals, like: Track, ls: LikeScript, th: Thresholds,
                      p: Progress)
  {
    && FiledIn(queue, p.w.queue, like, ls, th) && p.loc.rows == loc.rows
    && p.loc.stats == if like.skip then loc.stats.(skipped := loc.stats.skipped + 1)
                      else loc.stats.(queued := loc.stats.queued + 1)
  }

  predicate MatchedStep(queue: map<int, ReviewRow>, loc: Locals, like: Track, ls: LikeScript, th: Thresholds,
                        p: Progress)
  {
    && p.w.queue == queue && p.loc.stats == loc.stats
    && |p.loc.rows| == |loc.rows| + 1 && p.loc.rows == loc.rows + [p.loc.rows[|loc.rows|]]
    && p.loc.rows[|loc.rows|].trackId == like.trackId && Records(p.loc.rows[|loc.rows|].row, like, ls, th)
  }

  predicate KnownStep(queue: map<int, ReviewRow>, loc: Locals, p: Progress) {
    p.w.queue == queue && p.loc.rows == loc.rows && p.loc.stats == loc.stats
  }

  lemma CleanStep(w0: World, loc: Locals, like: Track, ls: LikeScript, th: Thresholds)
    requires ApprovesNothing(ls.outside)
    ensures var p, queue := LikeStep(w0, loc, like, ls, th, false), ApplyAll(w0, ls.outside).queue;
            var known := like.trackId in w0.ledger;
            && p.w.ledger == w0.ledger && p.w.watermark == w0.watermark
            && (p.halt.Running? && p.loc.clean ==>
                  && loc.clean
                  && if like.skip || (!known && FallsShort(ls, like, th)) then FiledStep(queue, loc, like, ls, th, p)
                     else if !known then MatchedStep(queue, loc, like, ls, th, p) && Matches(ls, like, th)
                     else KnownStep(queue, loc, p))
  {
    var w := ApplyAll(w0, ls.outside);
    OthersKeepLedger(w0, ls.outside);
    if like.skip || (ls.synced.Answered? && like.trackId !in w.ledger && FallsShort(ls, like, th)) {
      ShortLikeIsFiled(w0, loc, like, ls, th);
    } else if ls.synced.Answered? && like.trackId !in w.ledger && Matches(ls, like, th) {
      MatchedLikeIsPending(w0, loc, like, ls, th);
    } else {
      OtherLikesChangeNothing(w0, loc, like, ls, th);
    }
  }

  // ---------- all likes of a pass ----------

  /** The queue holds what it held and the tracks of the short likes, each with
      a row that reviews one of them. */
  ghost predicate QueueIs(queue: map<int, ReviewRow>, queue': map<int, ReviewRow>, likes: seq<Track>,
                          scripts: nat -> LikeScript, th: Thresholds, known: set<int>)
  {
    && (forall id :: id in queue' <==> id in queue || ShortTrack(likes, scripts, th, known, id))
    && (forall id :: ShortTrack(likes, scripts, th, known, id) ==>
          id in queue' && ReviewsSome(queue'[id], id, likes, scripts, th))
    && (forall id :: id in queue && !ShortTrack(likes, scripts, th, known, id) ==>
          SameFinding(queue[id], queue'[id]))
  }

  /** The pending rows are for the tracks of the matched likes, and each records
      one of them. */
  ghost predicate RowsAre(rows: seq<PendingRow>, likes: seq<Track>, scripts: nat -> LikeScript, th: Thresholds,
                          known: set<int>)
  {
    && (forall p :: p in rows ==> RecordsSome(p.row, p.trackId, likes, scripts, th, known))
    && (forall id :: MatchedTrack(likes, scripts, th, known, id) ==> exists p :: p in rows && p.trackId == id)
  }

  predicate CountsAre(stats: Stats, start: Stats, likes: seq<Track>, scripts: nat -> LikeScript, th: Thresholds,
                      known: set<int>)
  {
    && stats.skipped == start.skipped + |Skips(likes)|
    && stats.queued == start.queued + |Shorts(likes, scripts, th, known)|
    && stats.fetched == start.fetched && stats.added == start.added
  }

  ghost predicate CleanSoFar(w: World, loc: Locals, likes: seq<Track>, scripts: nat -> LikeScript, th: Thresholds,
                             p: Progress)
  {
    && QueueIs(w.queue, p.w.queue, likes, scripts, th, w.ledger.Keys)
    && RowsAre(p.loc.rows, likes, scripts, th, w.ledger.Keys)
    && CountsAre(p.loc.stats, loc.stats, likes, scripts, th, w.ledger.Keys)
  }

  lemma QueueIsStill(queue: map<int, ReviewRow>, q1: map<int, ReviewRow>, q2: map<int, ReviewRow>, likes: seq<Track>,
                     scripts: nat -> LikeScript, th: Thresholds, known: set<int>)
    requires QueueIs(queue, q1, likes, scripts, th, known) && SameFindings(q1, q2)
    ensures QueueIs(queue, q2, likes, scripts, th, known)
  {
    forall id | ShortTrack(likes, scripts, th, known, id)
      ensures id in q2 && ReviewsSome(q2[id], id, likes, scripts, th)
    {
      FindingOfLonger(q1[id], q2[id], id, likes, scripts, th);
    }
  }

  lemma QueueWithFiled(queue: map<int, ReviewRow>, q1: map<int, ReviewRow>, q2: map<int, ReviewRow>,
                       front: seq<Track>, last: Track, scripts: nat -> LikeScript, th: Thresholds, known: set<int>)
    requires QueueIs(queue, q1, front, scripts, th, known)
    requires Short(front + [last], scripts, th, known, |front|) && FiledIn(q1, q2, last, scripts(|front|), th)
    ensures QueueIs(queue, q2, front + [last], scripts, th, known)
  {
    var likes := front + [last];
    forall id
      ensures id in q2 <==> id in queue || ShortTrack(likes, scripts, th, known, id)
      ensures ShortTrack(likes, scripts, th, known, id) ==> id in q2 && ReviewsSome(q2[id], id, likes, scripts, th)
      ensures id in queue && !ShortTrack(likes, scripts, th, known, id) ==> SameFinding(queue[id], q2[id])
    {
      ShortTrackOfLonger(front, last, scripts, th, known, id);
      if id in q2 {
        SomeOfLonger(q2[id], id, front, last, scripts, th);
      }
    }
  }

  lemma QueueWithoutFiled(queue: map<int, ReviewRow>, q1: map<int, ReviewRow>, front: seq<Track>, last: Track,
                          scripts: nat -> LikeScript, th: Thresholds, known: set<int>)
    requires QueueIs(queue, q1, front, scripts, th, known) && !Short(front + [last], scripts, th, known, |front|)
    ensures QueueIs(queue, q1, front + [last], scripts, th, known)
  {
    var likes := front + [last];
    forall id
      ensures ShortTrack(likes, scripts, th, known, id) <==> ShortTrack(front, scripts, th, known, id)
      ensures ShortTrack(likes, scripts, th, known, id) ==> ReviewsSome(q1[id], id, likes, scripts, th)
    {
      ShortTrackOfLonger(front, last, scripts, th, known, id);
      if id in q1 {
        SomeOfLonger(q1[id], id, front, last, scripts, th);
      }
    }
  }

  lemma RowsOfLonger(rows: seq<PendingRow>, more: seq<PendingRow>, front: seq<Track>, last: Track,
                     scripts: nat -> LikeScript, th: Thresholds, known: set<int>)
    requires RowsAre(rows, front, scripts, th, known)
    requires if Matched(front + [last], scripts, th, known, |front|)
             then |more| == 1 && more[0].trackId == last.trackId && Records(more[0].row, last, scripts(|front|), th)
             else more == []
    ensures RowsAre(rows + more, front + [last], scripts, th, known)
  {
    var likes := front + [last];
    forall p | p in rows + more
      ensures RecordsSome(p.row, p.trackId, likes, scripts, th, known)
    {
      RecordedOfLonger(p.row, p.trackId, front, last, scripts, th, known);
    }
    forall id | MatchedTrack(likes, scripts, th, known, id)
      ensures exists p :: p in rows + more && p.trackId == id
    {
      MatchedTrackOfLonger(front, last, scripts, th, known, id);
      if MatchedTrack(front, scripts, th, known, id) {
        var p :| p in rows && p.trackId == id;
        assert p in rows + more;
      } else {
        assert more[0] in rows + more;
      }
    }
  }

  lemma CleanSoFarLonger(w: World, loc: Locals, front: seq<Track>, last: Track, scripts: nat -> LikeScript,
                         th: Thresholds, p: Progress, q: Progress)
    requires CleanSoFar(w, loc, front, scripts, th, p) && p.w.ledger == w.ledger
    requires ApprovesNothing(scripts(|front|).outside)
    requires q == LikeStep(p.w, p.loc, last, scripts(|front|), th, false) && q.halt.Running? && q.loc.clean
    ensures CleanSoFar(w, loc, front + [last], scripts, th, q)
  {
    var likes, ls, known := front + [last], scripts(|front|), w.ledger.Keys;
    var queue := ApplyAll(p.w, ls.outside).queue;
    assert likes[|front|] == last;
    CleanStep(p.w, p.loc, last, ls, th);
    OthersKeepFindings(p.w, ls.outside);
    QueueIsStill(w.queue, p.w.queue, queue, front, scripts, th, known);
    SkipsOfLonger(front, last);
    ShortsOfLonger(front, last, scripts, th, known);
    if Short(likes, scripts, th, known, |front|) {
      QueueWithFiled(w.queue, queue, q.w.queue, front, last, scripts, th, known);
      RowsOfLonger(p.loc.rows, [], front, last, scripts, th, known);
      assert p.loc.rows + [] == q.loc.rows;
    } else {
      QueueWithoutFiled(w.queue, queue, front, last, scripts, th, known);
      if Matched(likes, scripts, th, known, |front|) {
        RowsOfLonger(p.loc.rows, [q.loc.rows[|p.loc.rows|]], front, last, scripts, th, known);
      } else {
        RowsOfLonger(p.loc.rows, [], front, last, scripts, th, known);
        assert p.loc.rows + [] == q.loc.rows;
      }
    }
  }

  lemma {:induction false} CleanSteps(w: World, loc: Locals, likes: seq<Track>, scripts: nat -> LikeScript,
                                      th: Thresholds)
    requires (forall i :: ApprovesNothing(scripts(i).outside)) && loc.rows == []
    ensures var p := LikeSteps(w, loc, likes, scripts, th, false);
            && p.w.ledger == w.ledger && p.w.watermark == w.watermark
            && (p.halt.Running? && p.loc.clean ==> loc.clean && CleanSoFar(w, loc, likes, scripts, th, p))
  {
    if likes == [] {
      NothingYet(w, loc, scripts, th);
    } else {
      var front, last := Front(likes), Last(likes);
      assert likes == front + [last];
      CleanSteps(w, loc, front, scripts, th);
      var p, q := LikeSteps(w, loc, front, scripts, th, false), LikeSteps(w, loc, likes, scripts, th, false);
      if p.halt.Running? {
        assert q == LikeStep(p.w, p.loc, last, scripts(|front|), th, false);
        CleanStep(p.w, p.loc, last, scripts(|front|), th);
        if q.halt.Running? && q.loc.clean {
          CleanSoFarLonger(w, loc, front, last, scripts, th, p, q);
        }
      }
    }
  }

  lemma NothingYet(w: World, loc: Locals, scripts: nat -> LikeScript, th: Thresholds)
    requires loc.rows == []
    ensures CleanSoFar(w, loc, [], scripts, th, Progress(w, loc, Running))
  {
    assert Skips([]) == {} && Shorts([], scripts, th, w.ledger.Keys) == {};
  }

  // ---------- the commit ----------

  /** The ledger holds what it held, row for row, and the tracks of the matched
      likes, each with a row that records one of them. */
  ghost predicate LedgerIs(ledger: map<int, LedgerRow>, ledger': map<int, LedgerRow>, likes: seq<Track>,
                           scripts: nat -> LikeScript, th: Thresholds)
  {
    && (forall id :: id in ledger' <==> id in ledger || MatchedTrack(likes, scripts, th, ledger.Keys, id))
    && (forall id :: id in ledger' ==>
          if id in ledger then ledger'[id] == ledger[id]
          else RecordsSome(ledger'[id], id, likes, scripts, th, ledger.Keys))
  }

  lemma RowsMakeLedger(ledger: map<int, LedgerRow>, rows: seq<PendingRow>, likes: seq<Track>,
                       scripts: nat -> LikeScript, th: Thresholds)
    requires RowsAre(rows, likes, scripts, th, ledger.Keys)
    ensures LedgerIs(ledger, RecordedAll(ledger, rows), likes, scripts, th)
  {
    var ledger' := RecordedAll(ledger, rows);
    RecordedAllKeys(ledger, rows);
    RecordedAllKeepsRows(ledger, rows);
    forall id | id in ledger' && id !in ledger
      ensures RecordsSome(ledger'[id], id, likes, scripts, th, ledger.Keys)
      ensures MatchedTrack(likes, scripts, th, ledger.Keys, id)
    {
      var p :| p in rows && p.trackId == id && ledger'[id] == p.row;
      assert RecordsSome(p.row, p.trackId, likes, scripts, th, ledger.Keys);
    }
  }

  /** What a clean commit leaves of the ledger and the queue, and its answer. */
  predicate CommitIs(w: World, loc: Locals, posted: seq<SpotifyId>, o: PassOutcome) {
    && loc.clean && o.world.ledger == RecordedAll(w.ledger, loc.rows)
    && SameFindings(w.queue, o.world.queue) && o.posted == posted
    && o.stats == loc.stats.(added := o.stats.added)
  }

  lemma CommittingIs(w: World, loc: Locals, since: Time, s: PassScript, posted: seq<SpotifyId>)
    requires ApprovesNothing(s.beforeCommit)
    ensures var o := Committing(ApplyAll(w, s.beforeCommit), loc, since, s, posted);
            && o.stats == loc.stats
            && (o.end.Clean? ==> CommitIs(w, loc, posted, o))
  {
    OthersKeepLedger(w, s.beforeCommit);
    OthersKeepFindings(w, s.beforeCommit);
  }

  lemma AddingIs(w: World, loc: Locals, since: Time, s: PassScript)
    requires ApprovesNothing(s.beforeReread) && ApprovesNothing(s.beforeCommit) && loc.stats.added == 0
    ensures var o := Adding(w, loc, since, s);
            o.end.Clean? ==> CommitIs(w, loc, o.posted, o) && o.stats.added == |o.posted|
  {
    if loc.ids == [] {
      CommittingIs(w, loc, since, s, []);
    } else {
      var w1 := ApplyAll(w, s.beforeReread);
      OthersKeepLedger(w, s.beforeReread);
      OthersKeepFindings(w, s.beforeReread);
      var absent := Without(loc.ids, Elements(w1.playlist));
      var p := PostFrom(absent, s.posts, 0);
      PostedIsAPrefix(absent, s.posts, 0);
      CommittingIs(Appended(w1, p.landed), loc.(stats := loc.stats.(added := |absent|)), since, s, p.landed);
    }
  }

  // ---------- a whole pass ----------

  ghost predicate FilesExactly(w: World, likes: seq<Track>, scripts: nat -> LikeScript, th: Thresholds, o: PassOutcome)
  {
    && LedgerIs(w.ledger, o.world.ledger, likes, scripts, th)
    && QueueIs(w.queue, o.world.queue, likes, scripts, th, w.ledger.Keys)
    && o.stats == Stats(|likes|, |o.posted|, |Shorts(likes, scripts, th, w.ledger.Keys)|, |Skips(likes)|)
  }

  lemma HandlingFilesExactly(w: World, walk: WalkResult, since: Time, s: PassScript, th: Thresholds)
    requires NobodyApproves(s) && Handling(w, walk, since, s, th, false).end.Clean?
    ensures FilesExactly(w, walk.tracks, s.likes, th, Handling(w, walk, since, s, th, false))
  {
    var likes := walk.tracks;
    var loc := FirstLocals(walk.end.Complete?, since, w.playlist, |likes|);
    var p := LikeSteps(w, loc, likes, s.likes, th, false);
    var o := Adding(p.w, p.loc, since, s);
    CleanSteps(w, loc, likes, s.likes, th);
    AddingIs(p.w, p.loc, since, s);
    RowsMakeLedger(w.ledger, p.loc.rows, likes, s.likes, th);
    QueueIsStill(w.queue, p.w.queue, o.world.queue, likes, s.likes, th, w.ledger.Keys);
  }

  lemma ExactlyFromLater(w: World, w1: World, likes: seq<Track>, scripts: nat -> LikeScript, th: Thresholds,
                         o: PassOutcome)
    requires FilesExactly(w1, likes, scripts, th, o) && w1.ledger == w.ledger && SameFindings(w.queue, w1.queue)
    ensures FilesExactly(w, likes, scripts, th, o)
  {
  }

  /** A clean pass beside which nobody approves anything has added exactly the
      matched likes' tracks to the ledger and the short ones' to the review
      queue, each with the row its search answered for, and counted exactly
      them. */
  lemma CleanPassFilesExactly(w: World, s: PassScript, th: Thresholds)
    requires NobodyApproves(s) && RunPass(w, s, th, false).end.Clean?
    ensures FilesExactly(w, Walk(ServerFor(w.votes, s.sizes, s.faults), w.watermark).tracks, s.likes, th,
                         RunPass(w, s, th, false))
  {
    var walk := Walk(ServerFor(w.votes, s.sizes, s.faults), w.watermark);
    var w1 := ApplyAll(w, s.afterWalk);
    OthersKeepLedger(w, s.afterWalk);
    OthersKeepFindings(w, s.afterWalk);
    PassCases(w, s, th, false);
    HandlingFilesExactly(w1, walk, w.watermark, s, th);
    ExactlyFromLater(w, w1, walk.tracks, s.likes, th, RunPass(w, s, th, false));
  }

  // ---------- passes that do not commit ----------

  lemma UncommittedAddingKeeps(w: World, loc: Locals, since: Time, s: PassScript)
    requires ApprovesNothing(s.beforeReread) && ApprovesNothing(s.beforeCommit)
    ensures var o := Adding(w, loc, since, s);
            (o.world.ledger == w.ledger && o.world.watermark == w.watermark)
            || (s.commit.Lands() && !s.canceled && (loc.ids == [] || s.reread.Answered?))
  {
    OthersKeepLedger(w, s.beforeReread);
    OthersKeepLedger(w, s.beforeCommit);
    var w1 := ApplyAll(w, s.beforeReread);
    var p := PostFrom(Without(loc.ids, Elements(w1.playlist)), s.posts, 0);
    OthersKeepLedger(Appended(w1, p.landed), s.beforeCommit);
  }

  /** The ledger and the watermark move only in a commit that lands, of a pass
      that is not canceled: whatever fails before leaves both as they were. */
  lemma OnlyTheCommitMovesTheLedger(w: World, s: PassScript, th: Thresholds, dry: bool)
    requires NobodyApproves(s)
    requires var w' := RunPass(w, s, th, dry).world; w'.ledger != w.ledger || w'.watermark != w.watermark
    ensures !dry && s.commit.Lands() && !s.canceled
    ensures s.reload.Answered? && s.start.Landed? && s.firstRead.Answered?
  {
    OthersKeepLedger(w, s.afterWalk);
    var w1 := ApplyAll(w, s.afterWalk);
    var walk := Walk(ServerFor(w.votes, s.sizes, s.faults), w.watermark);
    var loc := FirstLocals(walk.end.Complete?, w.watermark, w1.playlist, |walk.tracks|);
    CleanSteps(w1, loc, walk.tracks, s.likes, th);
    DryStepsKeepLedger(w1, loc, walk.tracks, s.likes, th);
    var p := LikeSteps(w1, loc, walk.tracks, s.likes, th, false);
    UncommittedAddingKeeps(p.w, p.loc, w.watermark, s);
  }

  lemma {:induction false} DryStepsKeepLedger(w: World, loc: Locals, likes: seq<Track>, scripts: nat -> LikeScript,
                                              th: Thresholds)
    requires forall i :: ApprovesNothing(scripts(i).outside)
    ensures var w' := LikeSteps(w, loc, likes, scripts, th, true).w;
            w'.ledger == w.ledger && w'.watermark == w.watermark
  {
    if likes != [] {
      DryStepsKeepLedger(w, loc, Front(likes), scripts, th);
      OthersKeepLedger(LikeSteps(w, loc, Front(likes), scripts, th, true).w, scripts(|likes| - 1).outside);
    }
  }
}
