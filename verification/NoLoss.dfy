/** No like is ever lost: what every step of a pass, of the outside world and
    of a resync keeps. */
module NoLoss {
  import opened Common
  import opened Difm
  import opened DifmWalk
  import opened World
  import opened Pass

  // ---------- the invariant ----------

  predicate IsVoteFor(v: Vote, trackId: int) {
    Judge(v.row).RowOk? && Judge(v.row).track.trackId == trackId
  }

  /** Some vote for the track, cast at the given stored time, exists. */
  predicate CastAt(votes: seq<Vote>, trackId: int, stored: Time) {
    exists v :: v in votes && IsVoteFor(v, trackId) && Stored(v.at) == stored
  }

  /** A vote for the track is above the watermark, so a pass will read it. */
  predicate StillToRead(w: World, trackId: int) {
    exists v :: v in w.votes && IsVoteFor(v, trackId) && After(v, w.watermark)
  }

  predicate OnRecord(w: World, trackId: int) {
    trackId in w.ledger || trackId in w.queue
  }

  /** The like's track is in the ledger or in the review queue, or the track
      will be read again through a later vote for it. */
  predicate Covered(w: World, v: Vote) {
    && Judge(v.row).RowOk?
    && var id := Judge(v.row).track.trackId;
       OnRecord(w, id) || StillToRead(w, id)
  }

  /** Votes and stored times are as the services hand them out. */
  predicate Sane(w: World) {
    && WellFormed(w.votes) && w.clock >= 0
    && (forall v :: v in w.votes ==> SECOND < v.at <= w.clock)
    && (forall id :: id in w.ledger ==> CastAt(w.votes, id, w.ledger[id].likedAt))
    && (forall id :: id in w.queue ==> CastAt(w.votes, id, w.queue[id].likedAt))
  }

  /** No vote for a usable like, readable or not, is at or below the watermark
      without being covered. */
  predicate NoneLost(w: World) {
    && w.watermark <= w.clock
    && (w.watermark != UNSET ==>
          forall v :: v in w.votes && !Judge(v.row).RowFiltered? && v.at <= w.watermark ==> Covered(w, v))
  }

  predicate Inv(w: World) {
    Sane(w) && NoneLost(w)
  }

  // ---------- nothing but a resync removes anything ----------

  /** w' has everything w has, and its new votes are later than w's clock. */
  predicate Extends(w: World, w': World) {
    && w.clock <= w'.clock && w'.watermark == w.watermark
    && (forall v :: v in w.votes ==> v in w'.votes)
    && (forall v :: v in w'.votes ==> v in w.votes || v.at > w.clock)
    && w.ledger.Keys <= w'.ledger.Keys && w.queue.Keys <= w'.queue.Keys
  }

  lemma ExtendsTransitive(a: World, b: World, c: World)
    requires Extends(a, b) && Extends(b, c)
    ensures Extends(a, c)
  {
  }

  lemma CastVoteIsSane(w: World, v: Vote)
    requires Sane(w) && CanBeCast(w.votes, w.clock, v)
    ensures var w' := w.(votes := [v] + w.votes, clock := v.at);
            Sane(w') && Extends(w, w')
  {
    var votes := [v] + w.votes;
    assert forall u :: u in votes <==> u == v || u in w.votes;
    forall i, j | 0 <= i < j < |votes|
      ensures votes[i].at >= votes[j].at
      ensures RowId(votes[i].row) != 0 ==> RowId(votes[i].row) != RowId(votes[j].row)
    {
      assert votes[j] == w.votes[j - 1] && votes[j] in w.votes;
      assert i > 0 ==> votes[i] == w.votes[i - 1];
    }
    forall id | id in w.ledger
      ensures CastAt(votes, id, w.ledger[id].likedAt)
    {
      var u :| u in w.votes && IsVoteFor(u, id) && Stored(u.at) == w.ledger[id].likedAt;
      assert u in votes;
    }
    forall id | id in w.queue
      ensures CastAt(votes, id, w.queue[id].likedAt)
    {
      var u :| u in w.votes && IsVoteFor(u, id) && Stored(u.at) == w.queue[id].likedAt;
      assert u in votes;
    }
  }

  lemma RecordedIsSane(w: World, trackId: int, row: LedgerRow)
    requires Sane(w) && CastAt(w.votes, trackId, row.likedAt)
    ensures var w' := w.(ledger := Recorded(w.ledger, trackId, row));
            Sane(w') && Extends(w, w')
  {
  }

  lemma ResolvedIsSane(w: World, trackId: int, status: Status)
    requires Sane(w)
    ensures var w' := w.(queue := Resolved(w.queue, trackId, status));
            Sane(w') && Extends(w, w')
  {
  }

  lemma PlacingExtends(w: World, trackId: int, row: LedgerRow, post: Write, record: Write, resolve: Write)
    requires Sane(w) && trackId in w.queue && CastAt(w.votes, trackId, row.likedAt)
    ensures var w' := Placing(w, trackId, row, post, record, resolve);
            Sane(w') && Extends(w, w')
  {
    var w1 := if row.spotifyId !in w.playlist && post.Lands() then Appended(w, [row.spotifyId]) else w;
    RecordedIsSane(w1, trackId, row);
    ResolvedIsSane(w1.(ledger := Recorded(w1.ledger, trackId, row)), trackId, Approved);
  }

  lemma ApplyExtends(w: World, o: Outside)
    requires Sane(w)
    ensures Sane(Apply(w, o)) && Extends(w, Apply(w, o))
  {
    match o
    case NewVote(v) =>
      if CanBeCast(w.votes, w.clock, v) {
        CastVoteIsSane(w, v);
      }
    case HandAdd(_) =>
    case HandRemove(_) =>
    case Approve(trackId, candidate, _, post, record, resolve) =>
      var chosen := Choose(w.queue, trackId, candidate);
      if chosen.Some? {
        PlacingExtends(w, trackId, chosen.value, post, record, resolve);
      }
    case Reject(trackId, _) => ResolvedIsSane(w, trackId, Rejected);
  }

  lemma {:induction false} ApplyAllExtends(w: World, os: seq<Outside>)
    requires Sane(w)
    ensures Sane(ApplyAll(w, os)) && Extends(w, ApplyAll(w, os))
    decreases |os|
  {
    if os != [] {
      ApplyExtends(w, os[0]);
      ApplyAllExtends(Apply(w, os[0]), os[1..]);
      ExtendsTransitive(w, Apply(w, os[0]), ApplyAll(w, os));
    }
  }

  // ---------- one like ----------

  /** The like comes from a vote of w. */
  predicate FromVote(w: World, like: Track) {
    exists v :: v in w.votes && Judge(v.row) == RowOk(like) && like.likedAt == v.at
  }

  predicate RowsSane(w: World, loc: Locals, bound: Time) {
    && loc.high <= bound
    && forall p :: p in loc.rows ==> p.likedAt <= bound && CastAt(w.votes, p.trackId, p.row.likedAt)
  }

  /** The like's track is recorded, or will be by the commit. */
  predicate Handled(w: World, loc: Locals, like: Track) {
    OnRecord(w, like.trackId) || exists p :: p in loc.rows && p.trackId == like.trackId
  }

  /** What a step may do to the pass's variables. */
  predicate Moves(loc: Locals, loc': Locals) {
    && (loc'.clean ==> loc.clean)
    && (forall p :: p in loc.rows ==> p in loc'.rows)
  }

  lemma LikeIsCast(w: World, like: Track)
    requires FromVote(w, like)
    ensures CastAt(w.votes, like.trackId, Stored(like.likedAt))
  {
    var v :| v in w.votes && Judge(v.row) == RowOk(like) && like.likedAt == v.at;
    assert IsVoteFor(v, like.trackId);
  }

  lemma RowsStaySane(w: World, w': World, loc: Locals, bound: Time)
    requires Extends(w, w') && RowsSane(w, loc, bound)
    ensures RowsSane(w', loc, bound)
  {
    forall p | p in loc.rows
      ensures CastAt(w'.votes, p.trackId, p.row.likedAt)
    {
      var v :| v in w.votes && IsVoteFor(v, p.trackId) && Stored(v.at) == p.row.likedAt;
      assert v in w'.votes;
    }
  }

  predicate StepOk(w: World, loc: Locals, like: Track, bound: Time, p: Progress) {
    && Sane(p.w) && Extends(w, p.w) && Moves(loc, p.loc) && RowsSane(p.w, p.loc, bound)
    && (p.halt.Running? && p.loc.clean ==> Handled(p.w, p.loc, like))
  }

  lemma EnqueuedIsSane(w: World, trackId: int, row: ReviewRow)
    requires Sane(w) && CastAt(w.votes, trackId, row.likedAt)
    ensures var w' := w.(queue := Enqueued(w.queue, trackId, row));
            Sane(w') && Extends(w, w') && OnRecord(w', trackId)
  {
  }

  lemma QueuedIsOk(w: World, w': World, loc: Locals, like: Track, bound: Time, p: Progress)
    requires Extends(w, w') && Sane(w') && RowsSane(w', loc, bound) && like.likedAt <= bound && p.w == w'
    requires Moves(loc, p.loc) && p.loc.rows == loc.rows && (p.loc.high == loc.high || p.loc.high == like.likedAt)
    requires p.halt.Running? && p.loc.clean ==> OnRecord(w', like.trackId)
    ensures StepOk(w, loc, like, bound, p)
  {
  }

  lemma QueueingOk(w: World, loc: Locals, like: Track, candidates: seq<Scored>, reason: Reason,
                   write: Write, bound: Time)
    requires Sane(w) && FromVote(w, like) && RowsSane(w, loc, bound) && like.likedAt <= bound
    ensures StepOk(w, loc, like, bound, Queueing(w, loc, like, candidates, reason, write, false))
  {
    var row, p := ReviewRowFor(like, candidates, reason), Queueing(w, loc, like, candidates, reason, write, false);
    LikeIsCast(w, like);
    EnqueuedIsSane(w, like.trackId, row);
    RowsStaySane(w, p.w, loc, bound);
    QueuedIsOk(w, p.w, loc, like, bound, p);
  }

  lemma DecidingOk(w: World, loc: Locals, like: Track, candidates: seq<Scored>, th: Thresholds,
                   write: Write, bound: Time)
    requires Sane(w) && FromVote(w, like) && RowsSane(w, loc, bound) && like.likedAt <= bound
    ensures StepOk(w, loc, like, bound, Deciding(w, loc, like, candidates, th, write, false))
  {
    var p := Deciding(w, loc, like, candidates, th, write, false);
    if candidates != [] && candidates[0].score >= th.auto {
      LikeIsCast(w, like);
      assert RowFor(like, candidates[0]) in p.loc.rows;
    } else if candidates != [] && candidates[0].score >= th.review {
      QueueingOk(w, loc, like, candidates, LowConfidence, write, bound);
    } else {
      QueueingOk(w, loc, like, candidates, NoMatch, write, bound);
    }
  }

  /** The steps that queue and decide nothing. */
  lemma QuietStepOk(w: World, loc: Locals, like: Track, bound: Time, p: Progress)
    requires Sane(w) && RowsSane(w, loc, bound) && like.likedAt <= bound && p.w == w
    requires || (p.loc == loc && !p.halt.Running?)
             || p.loc == loc.Fail()
             || (p.loc == loc.Advance(like.likedAt) && like.trackId in w.ledger)
    ensures StepOk(w, loc, like, bound, p)
  {
  }

  lemma StepOkFrom(w0: World, w: World, loc: Locals, like: Track, bound: Time, p: Progress)
    requires Extends(w0, w) && StepOk(w, loc, like, bound, p)
    ensures StepOk(w0, loc, like, bound, p)
  {
    ExtendsTransitive(w0, w, p.w);
  }

  lemma LikeStepOk(w0: World, loc: Locals, like: Track, ls: LikeScript, th: Thresholds, bound: Time)
    requires Sane(w0) && FromVote(w0, like) && RowsSane(w0, loc, bound) && like.likedAt <= bound
    ensures StepOk(w0, loc, like, bound, LikeStep(w0, loc, like, ls, th, false))
  {
    var w := ApplyAll(w0, ls.outside);
    ApplyAllExtends(w0, ls.outside);
    RowsStaySane(w0, w, loc, bound);
    FromVoteStays(w0, w, like);
    var p := LikeStep(w0, loc, like, ls, th, false);
    if like.skip {
      QueueingOk(w, loc, like, [], Skipped, ls.enqueue, bound);
    } else if ls.synced.Answered? && like.trackId !in w.ledger && ls.search(like).Found? {
      DecidingOk(w, loc, like, ls.search(like).candidates, th, ls.enqueue, bound);
    } else {
      QuietStepOk(w, loc, like, bound, p);
    }
    StepOkFrom(w0, w, loc, like, bound, p);
  }

  lemma FromVoteStays(w: World, w': World, like: Track)
    requires FromVote(w, like) && Extends(w, w')
    ensures FromVote(w', like)
  {
    var v :| v in w.votes && Judge(v.row) == RowOk(like) && like.likedAt == v.at;
    assert v in w'.votes;
  }

  // ---------- all likes of a pass ----------

  predicate StepsOk(w: World, loc: Locals, likes: seq<Track>, bound: Time, p: Progress) {
    && Sane(p.w) && Extends(w, p.w) && Moves(loc, p.loc) && RowsSane(p.w, p.loc, bound)
    && (p.halt.Running? && p.loc.clean ==> forall like :: like in likes ==> Handled(p.w, p.loc, like))
  }

  lemma HandledStays(w: World, w': World, loc: Locals, loc': Locals, like: Track)
    requires Handled(w, loc, like) && Extends(w, w') && Moves(loc, loc')
    ensures Handled(w', loc', like)
  {
  }

  lemma StepsOkThenStep(w: World, loc: Locals, front: seq<Track>, last: Track, bound: Time, p: Progress, q: Progress)
    requires StepsOk(w, loc, front, bound, p) && p.halt.Running? && StepOk(p.w, p.loc, last, bound, q)
    ensures StepsOk(w, loc, front + [last], bound, q)
  {
    ExtendsTransitive(w, p.w, q.w);
    if q.halt.Running? && q.loc.clean {
      forall like | like in front
        ensures Handled(q.w, q.loc, like)
      {
        HandledStays(p.w, q.w, p.loc, q.loc, like);
      }
    }
  }

  lemma {:induction false} LikeStepsOk(w: World, loc: Locals, likes: seq<Track>, scripts: nat -> LikeScript,
                                       th: Thresholds, bound: Time)
    requires Sane(w) && RowsSane(w, loc, bound)
    requires forall like :: like in likes ==> FromVote(w, like) && like.likedAt <= bound
    ensures StepsOk(w, loc, likes, bound, LikeSteps(w, loc, likes, scripts, th, false))
  {
    if likes != [] {
      var front, last := Front(likes), Last(likes);
      assert likes == front + [last];
      LikeStepsOk(w, loc, front, scripts, th, bound);
      var p := LikeSteps(w, loc, front, scripts, th, false);
      var q := LikeSteps(w, loc, likes, scripts, th, false);
      if p.halt.Running? {
        assert q == LikeStep(p.w, p.loc, last, scripts(|likes| - 1), th, false);
        FromVoteStays(w, p.w, last);
        LikeStepOk(p.w, p.loc, last, scripts(|likes| - 1), th, bound);
        StepsOkThenStep(w, loc, front, last, bound, p, q);
      }
    }
  }

  // ---------- the commit ----------

  lemma {:induction false} RecordedAllKeys(ledger: map<int, LedgerRow>, rows: seq<PendingRow>)
    ensures ledger.Keys <= RecordedAll(ledger, rows).Keys
    ensures forall p :: p in rows ==> p.trackId in RecordedAll(ledger, rows)
    ensures forall id :: id in RecordedAll(ledger, rows) ==>
              || (id in ledger && RecordedAll(ledger, rows)[id] == ledger[id])
              || exists p :: p in rows && p.trackId == id && RecordedAll(ledger, rows)[id] == p.row
  {
    if rows != [] {
      RecordedAllKeys(ledger, Front(rows));
      assert rows == Front(rows) + [Last(rows)];
    }
  }

  lemma {:induction false} AdvancedIsBounded(high: Time, rows: seq<PendingRow>, bound: Time)
    requires high <= bound && forall p :: p in rows ==> p.likedAt <= bound
    ensures high <= AdvancedOver(high, rows) <= bound
  {
    if rows != [] {
      AdvancedIsBounded(high, Front(rows), bound);
      assert Last(rows) in rows;
    }
  }

  lemma CommittedSane(w: World, loc: Locals, advance: bool, high: Time, bound: Time)
    requires Sane(w) && RowsSane(w, loc, bound)
    ensures Sane(Committed(w, loc.rows, advance, high))
    ensures var w' := Committed(w, loc.rows, advance, high);
            && w.ledger.Keys <= w'.ledger.Keys
            && forall p :: p in loc.rows ==> p.trackId in w'.ledger
  {
    RecordedAllKeys(w.ledger, loc.rows);
  }

  // ---------- moving the watermark ----------

  /** Every vote newer than w's watermark was readable and is recorded. */
  predicate AllRead(w: World, w': World) {
    forall v :: v in w.votes && After(v, w.watermark) && !Judge(v.row).RowFiltered? ==>
      Judge(v.row).RowOk? && OnRecord(w', Judge(v.row).track.trackId)
  }

  /** How the durable state moves when nothing is forgotten: everything stays,
      and the watermark moves only if every newer vote is recorded. */
  predicate Advances(w: World, w': World) {
    && Sane(w') && Extends(w, w'.(watermark := w.watermark))
    && (w'.watermark != w.watermark ==> w'.watermark <= w.clock && AllRead(w, w'))
  }

  lemma ExtendingAdvances(w: World, w': World)
    requires Sane(w') && Extends(w, w')
    ensures Advances(w, w')
  {
    assert w'.(watermark := w.watermark) == w';
  }

  /** Every vote at or below the watermark was readable and is recorded. */
  predicate AllRecorded(w: World) {
    w.watermark != UNSET ==>
      forall v :: v in w.votes && !Judge(v.row).RowFiltered? && v.at <= w.watermark ==>
        Judge(v.row).RowOk? && OnRecord(w, Judge(v.row).track.trackId)
  }

  lemma AdvanceKeepsInv(w: World, w': World)
    requires Inv(w) && Advances(w, w')
    ensures Inv(w')
  {
    forall v | v in w'.votes && !Judge(v.row).RowFiltered? && v.at <= w'.watermark && w'.watermark != UNSET
      ensures Covered(w', v)
    {
      AdvanceKeepsCovered(w, w', v);
    }
  }

  lemma AdvanceKeepsCovered(w: World, w': World, v: Vote)
    requires Inv(w) && Advances(w, w')
    requires v in w'.votes && !Judge(v.row).RowFiltered? && v.at <= w'.watermark && w'.watermark != UNSET
    ensures Covered(w', v)
  {
    assert v in w.votes;
    if !After(v, w.watermark) {
      assert Covered(w, v);
      var id := Judge(v.row).track.trackId;
      if StillToRead(w, id) {
        var u :| u in w.votes && IsVoteFor(u, id) && After(u, w.watermark);
        assert u in w'.votes;
      }
    }
  }

  lemma AdvanceKeepsRecords(w: World, w': World)
    requires Inv(w) && AllRecorded(w) && Advances(w, w')
    ensures AllRecorded(w')
  {
    forall v | v in w'.votes && !Judge(v.row).RowFiltered? && v.at <= w'.watermark && w'.watermark != UNSET
      ensures Judge(v.row).RowOk? && OnRecord(w', Judge(v.row).track.trackId)
    {
      assert v in w.votes;
    }
  }

  /** Every usable vote newer than since, among those w0 had, is handled. */
  predicate AllHandled(w0: World, w: World, loc: Locals) {
    forall v :: v in w0.votes && After(v, w0.watermark) && !Judge(v.row).RowFiltered? ==>
      Judge(v.row).RowOk? && Handled(w, loc, Judge(v.row).track)
  }

  predicate ReadyToCommit(w0: World, w: World, loc: Locals) {
    && Inv(w0) && Sane(w) && Extends(w0, w) && RowsSane(w, loc, w0.clock)
    && (loc.clean ==> AllHandled(w0, w, loc))
  }

  lemma CommittedAdvances(w0: World, w: World, loc: Locals, advance: bool)
    requires ReadyToCommit(w0, w, loc)
    requires advance ==> loc.clean
    ensures var w' := Committed(w, loc.rows, advance, AdvancedOver(loc.high, loc.rows));
            Advances(w0, w') && (loc.clean ==> AllRead(w0, w'))
  {
    var high := AdvancedOver(loc.high, loc.rows);
    var w' := Committed(w, loc.rows, advance, high);
    CommittedSane(w, loc, advance, high, w0.clock);
    AdvancedIsBounded(loc.high, loc.rows, w0.clock);
    if loc.clean {
      forall v | v in w0.votes && After(v, w0.watermark) && !Judge(v.row).RowFiltered?
        ensures OnRecord(w', Judge(v.row).track.trackId)
      {
        assert Handled(w, loc, Judge(v.row).track);
      }
    }
  }

  lemma UncommittedAdvances(w0: World, w: World, loc: Locals)
    requires ReadyToCommit(w0, w, loc)
    ensures Advances(w0, w) && (loc.clean && loc.rows == [] ==> AllRead(w0, w))
  {
    ExtendingAdvances(w0, w);
    if loc.clean && loc.rows == [] {
      forall v | v in w0.votes && After(v, w0.watermark) && !Judge(v.row).RowFiltered?
        ensures OnRecord(w, Judge(v.row).track.trackId)
      {
        assert Handled(w, loc, Judge(v.row).track);
      }
    }
  }

  /** A pass advances, and one that calls itself clean recorded all it saw. */
  predicate PassAdvanced(w: World, o: PassOutcome) {
    Advances(w, o.world) && (o.end.Clean? ==> AllRead(w, o.world))
  }

  lemma CommittingAdvances(w0: World, w: World, loc: Locals, s: PassScript, posted: seq<SpotifyId>)
    requires ReadyToCommit(w0, w, loc)
    ensures PassAdvanced(w0, Committing(w, loc, w0.watermark, s, posted))
  {
    UncommittedAdvances(w0, w, loc);
    CommittedAdvances(w0, w, loc, loc.clean && AdvancedOver(loc.high, loc.rows) > w0.watermark);
  }

  lemma StillReady(w0: World, w: World, w': World, loc: Locals)
    requires ReadyToCommit(w0, w, loc) && Sane(w') && Extends(w, w')
    ensures ReadyToCommit(w0, w', loc)
  {
    ExtendsTransitive(w0, w, w');
    RowsStaySane(w, w', loc, w0.clock);
    if loc.clean {
      forall v | v in w0.votes && After(v, w0.watermark) && !Judge(v.row).RowFiltered?
        ensures Handled(w', loc, Judge(v.row).track)
      {
        HandledStays(w, w', loc, loc, Judge(v.row).track);
      }
    }
  }

  lemma CommittingReports(w: World, loc: Locals, since: Time, s: PassScript, posted: seq<SpotifyId>)
    ensures Committing(w, loc, since, s, posted).stats == loc.stats
    ensures Committing(w, loc, since, s, posted).posted == posted
  {
  }

  /** Adding to the playlist either stops short of the commit or ends with it. */
  lemma AddingCases(w: World, loc: Locals, since: Time, s: PassScript)
    requires loc.ids != []
    ensures var w1 := ApplyAll(w, s.beforeReread);
            var absent := Without(loc.ids, Elements(w1.playlist));
            var landed := PostFrom(absent, s.posts, 0).landed;
            var o := Adding(w, loc, since, s);
            || (!o.end.Clean? && (o.world == w1 || o.world == Appended(w1, landed))
                && (o.posted == [] || o.posted == landed))
            || o == Committing(ApplyAll(Appended(w1, landed), s.beforeCommit),
                               loc.(stats := loc.stats.(added := |absent|)), since, s, landed)
  {
  }

  lemma PostingStaysReady(w0: World, w: World, loc: Locals, landed: seq<SpotifyId>, stats: Stats)
    requires ReadyToCommit(w0, w, loc)
    ensures ReadyToCommit(w0, Appended(w, landed), loc.(stats := stats))
    ensures Advances(w0, w) && Advances(w0, Appended(w, landed))
  {
    UncommittedAdvances(w0, w, loc);
    StillReady(w0, w, Appended(w, landed), loc);
    UncommittedAdvances(w0, Appended(w, landed), loc);
    var loc' := loc.(stats := stats);
    if loc.clean {
      forall v | v in w0.votes && After(v, w0.watermark) && !Judge(v.row).RowFiltered?
        ensures Handled(Appended(w, landed), loc', Judge(v.row).track)
      {
        assert Handled(Appended(w, landed), loc, Judge(v.row).track);
      }
    }
  }

  /** The commit, after what others do before it. */
  lemma CommitLaterAdvances(w0: World, w: World, loc: Locals, s: PassScript, posted: seq<SpotifyId>)
    requires ReadyToCommit(w0, w, loc)
    ensures PassAdvanced(w0, Committing(ApplyAll(w, s.beforeCommit), loc, w0.watermark, s, posted))
  {
    ApplyAllExtends(w, s.beforeCommit);
    StillReady(w0, w, ApplyAll(w, s.beforeCommit), loc);
    CommittingAdvances(w0, ApplyAll(w, s.beforeCommit), loc, s, posted);
  }

  lemma AddingAdvances(w0: World, w: World, loc: Locals, s: PassScript)
    requires ReadyToCommit(w0, w, loc)
    ensures PassAdvanced(w0, Adding(w, loc, w0.watermark, s))
  {
    if loc.ids == [] {
      CommitLaterAdvances(w0, w, loc, s, []);
    } else {
      var w1 := ApplyAll(w, s.beforeReread);
      ApplyAllExtends(w, s.beforeReread);
      StillReady(w0, w, w1, loc);
      var absent := Without(loc.ids, Elements(w1.playlist));
      var landed := PostFrom(absent, s.posts, 0).landed;
      var stats := loc.stats.(added := |absent|);
      PostingStaysReady(w0, w1, loc, landed, stats);
      CommitLaterAdvances(w0, Appended(w1, landed), loc.(stats := stats), s, landed);
      AddingCases(w, loc, w0.watermark, s);
    }
  }

  // ---------- a whole pass ----------

  lemma {:induction false} DryStepsExtend(w: World, loc: Locals, likes: seq<Track>, scripts: nat -> LikeScript,
                                          th: Thresholds)
    requires Sane(w)
    ensures var p := LikeSteps(w, loc, likes, scripts, th, true);
            Sane(p.w) && Extends(w, p.w)
  {
    if likes != [] {
      DryStepsExtend(w, loc, Front(likes), scripts, th);
      var p := LikeSteps(w, loc, Front(likes), scripts, th, true);
      var ls := scripts(|likes| - 1);
      ApplyAllExtends(p.w, ls.outside);
      ExtendsTransitive(w, p.w, ApplyAll(p.w, ls.outside));
    }
  }

  lemma FetchedLikesAreVotes(w: World, s: PassScript, like: Track)
    requires Sane(w) && like in Walk(ServerFor(w.votes, s.sizes, s.faults), w.watermark).tracks
    ensures FromVote(w, like) && like.likedAt <= w.clock
  {
    WalkReturnsLikes(w.votes, s.sizes, s.faults, w.watermark, like);
  }

  /** A clean walk hands the pass every usable newer vote. */
  lemma CleanWalkIsHandled(w0: World, s: PassScript, w: World, loc: Locals)
    requires Sane(w0)
    requires var walk := Walk(ServerFor(w0.votes, s.sizes, s.faults), w0.watermark);
             walk.end.Complete? && forall like :: like in walk.tracks ==> Handled(w, loc, like)
    ensures AllHandled(w0, w, loc)
  {
    forall v | v in w0.votes && After(v, w0.watermark) && !Judge(v.row).RowFiltered?
      ensures Judge(v.row).RowOk? && Handled(w, loc, Judge(v.row).track)
    {
      CleanWalkReturns(w0.votes, s.sizes, s.faults, w0.watermark, v);
    }
  }

  lemma DryHandlingAdvances(w0: World, w: World, walk: WalkResult, s: PassScript, th: Thresholds)
    requires Inv(w0) && Sane(w) && Extends(w0, w)
    ensures PassAdvanced(w0, Handling(w, walk, w0.watermark, s, th, true))
  {
    var loc := FirstLocals(walk.end.Complete?, w0.watermark, w.playlist, |walk.tracks|);
    var p := LikeSteps(w, loc, walk.tracks, s.likes, th, true);
    DryStepsExtend(w, loc, walk.tracks, s.likes, th);
    ExtendsTransitive(w0, w, p.w);
    ExtendingAdvances(w0, p.w);
  }

  /** After the likes of a pass, it is ready to commit. */
  lemma StepsReady(w0: World, w: World, s: PassScript, loc: Locals, th: Thresholds)
    requires Inv(w0) && Sane(w) && Extends(w0, w) && loc.high <= w0.clock && loc.rows == []
    requires loc.clean ==> Walk(ServerFor(w0.votes, s.sizes, s.faults), w0.watermark).end.Complete?
    ensures var walk := Walk(ServerFor(w0.votes, s.sizes, s.faults), w0.watermark);
            var p := LikeSteps(w, loc, walk.tracks, s.likes, th, false);
            Sane(p.w) && Extends(w0, p.w) && (p.halt.Running? ==> ReadyToCommit(w0, p.w, p.loc))
  {
    var walk := Walk(ServerFor(w0.votes, s.sizes, s.faults), w0.watermark);
    forall like | like in walk.tracks
      ensures FromVote(w, like) && like.likedAt <= w0.clock
    {
      FetchedLikesAreVotes(w0, s, like);
      FromVoteStays(w0, w, like);
    }
    LikeStepsOk(w, loc, walk.tracks, s.likes, th, w0.clock);
    var p := LikeSteps(w, loc, walk.tracks, s.likes, th, false);
    ExtendsTransitive(w0, w, p.w);
    if p.halt.Running? && p.loc.clean {
      CleanWalkIsHandled(w0, s, p.w, p.loc);
    }
  }

  lemma HandlingAdvances(w0: World, w: World, s: PassScript, th: Thresholds)
    requires Inv(w0) && Sane(w) && Extends(w0, w)
    ensures var walk := Walk(ServerFor(w0.votes, s.sizes, s.faults), w0.watermark);
            PassAdvanced(w0, Handling(w, walk, w0.watermark, s, th, false))
  {
    var walk := Walk(ServerFor(w0.votes, s.sizes, s.faults), w0.watermark);
    var loc := FirstLocals(walk.end.Complete?, w0.watermark, w.playlist, |walk.tracks|);
    StepsReady(w0, w, s, loc, th);
    var p := LikeSteps(w, loc, walk.tracks, s.likes, th, false);
    ExtendingAdvances(w0, p.w);
    if p.halt.Running? {
      AddingAdvances(w0, p.w, p.loc, s);
    }
  }

  lemma FetchedCases(w: World, walk: WalkResult, s: PassScript, th: Thresholds, dry: bool)
    ensures var w1 := ApplyAll(w, s.afterWalk);
            var o := Fetched(w, walk, s, th, dry);
            || (!o.end.Clean? && (o.world == w || o.world == w1) && o.posted == [])
            || ((walk.end.Complete? || walk.end.Dropped?) && o == Handling(w1, walk, w.watermark, s, th, dry))
  {
  }

  /** A pass either stops before its likes, having changed nothing itself, or
      is its handling of them. */
  lemma PassCases(w: World, s: PassScript, th: Thresholds, dry: bool)
    ensures var w1 := ApplyAll(w, s.afterWalk);
            var walk := Walk(ServerFor(w.votes, s.sizes, s.faults), w.watermark);
            var o := RunPass(w, s, th, dry);
            || (!o.end.Clean? && (o.world == w || o.world == w1) && o.posted == [])
            || ((walk.end.Complete? || walk.end.Dropped?) && o == Handling(w1, walk, w.watermark, s, th, dry))
  {
    FetchedCases(w, Walk(ServerFor(w.votes, s.sizes, s.faults), w.watermark), s, th, dry);
  }

  /** Whatever happens during a pass, and wherever it dies, it moves the
      watermark only over votes that are recorded, and one that ends clean
      recorded every vote there was. */
  lemma PassAdvances(w: World, s: PassScript, th: Thresholds, dry: bool)
    requires Inv(w)
    ensures PassAdvanced(w, RunPass(w, s, th, dry))
  {
    var w1 := ApplyAll(w, s.afterWalk);
    ApplyAllExtends(w, s.afterWalk);
    ExtendingAdvances(w, w);
    ExtendingAdvances(w, w1);
    PassCases(w, s, th, dry);
    if dry {
      DryHandlingAdvances(w, w1, Walk(ServerFor(w.votes, s.sizes, s.faults), w.watermark), s, th);
    } else {
      HandlingAdvances(w, w1, s, th);
    }
  }

  /** So nothing is lost. */
  lemma PassKeepsInv(w: World, s: PassScript, th: Thresholds, dry: bool)
    requires Inv(w)
    ensures Inv(RunPass(w, s, th, dry).world)
  {
    PassAdvances(w, s, th, dry);
    AdvanceKeepsInv(w, RunPass(w, s, th, dry).world);
  }

  /** After a clean pass every vote there was when it started is recorded, also
      those above the watermark the pass leaves, and those a forget had left
      without a record: a later vote for their track was read again. */
  lemma CleanPassRecordsEverything(w: World, s: PassScript, th: Thresholds, dry: bool, v: Vote)
    requires Inv(w) && RunPass(w, s, th, dry).end.Clean?
    requires v in w.votes && !Judge(v.row).RowFiltered?
    ensures Judge(v.row).RowOk? && OnRecord(RunPass(w, s, th, dry).world, Judge(v.row).track.trackId)
  {
    PassAdvances(w, s, th, dry);
    if !After(v, w.watermark) {
      assert Covered(w, v);
      var id := Judge(v.row).track.trackId;
      if !OnRecord(w, id) {
        var u :| u in w.votes && IsVoteFor(u, id) && After(u, w.watermark);
        assert OnRecord(RunPass(w, s, th, dry).world, id);
      }
    }
  }

  /** So a clean pass heals what forgets left unrecorded. */
  lemma CleanPassHeals(w: World, s: PassScript, th: Thresholds, dry: bool)
    requires Inv(w) && RunPass(w, s, th, dry).end.Clean?
    ensures AllRecorded(RunPass(w, s, th, dry).world)
  {
    var w' := RunPass(w, s, th, dry).world;
    PassAdvances(w, s, th, dry);
    forall v | v in w'.votes && !Judge(v.row).RowFiltered? && v.at <= w'.watermark && w'.watermark != UNSET
      ensures Judge(v.row).RowOk? && OnRecord(w', Judge(v.row).track.trackId)
    {
      CleanPassRecordsEverything(w, s, th, dry, v);
    }
  }
}
