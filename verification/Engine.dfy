/** The engine and the two services it writes to, as objects updated in
    place. Each method is proved against the functions of World and Pass. */
module Engine {
  import opened Common
  import opened Difm
  import opened DifmWalk
  import opened World
  import opened Pass

  /** The DI.fm account: votes newest first. */
  class VoteList {
    var votes: seq<Vote>
    var clock: Time
  }

  class Spotify {
    var playlist: seq<SpotifyId>
    ghost var history: seq<SpotifyId>
    ghost var byHand: multiset<SpotifyId>

    method Append(ids: seq<SpotifyId>)
      modifies this`playlist, this`history
      ensures playlist == old(playlist) + ids && history == old(history) + ids
    {
      playlist := playlist + ids;
      history := history + ids;
    }

    method PostBatch(uris: seq<SpotifyId>, write: Write) returns (p: Posting)
      modifies this`playlist, this`history
      ensures p == Batch(uris, write)
      ensures playlist == old(playlist) + p.landed && history == old(history) + p.landed
    {
      if write.Lands() {
        Append(uris);
      }
      p := Batch(uris, write);
    }

    method AddToPlaylist(trackIds: seq<SpotifyId>, posts: nat -> Write) returns (p: Posting)
      modifies this`playlist, this`history
      ensures p == PostFrom(trackIds, posts, 0)
      ensures playlist == old(playlist) + p.landed && history == old(history) + p.landed
    {
      var start, batch := 0, 0;
      p := Posting([], AllPosted);
      while start < |trackIds| && p.end.AllPosted?
        invariant 0 <= start
        invariant playlist == old(playlist) + p.landed && history == old(history) + p.landed
        invariant PostFrom(trackIds, posts, 0) == Then(p, PostFrom(RestFrom(trackIds, start), posts, batch))
        decreases |trackIds| - start
      {
        var end := if start + BATCH < |trackIds| then start + BATCH else |trackIds|;
        NextBatch(trackIds, start, end, posts, batch, p);
        var one := PostBatch(trackIds[start..end], posts(batch));
        ConcatAssociates(old(playlist), p.landed, one.landed);
        ConcatAssociates(old(history), p.landed, one.landed);
        p := Then(p, one);
        start, batch := start + BATCH, batch + 1;
      }
    }
  }

  class Store {
    var ledger: map<int, LedgerRow>
    var queue: map<int, ReviewRow>
    var watermark: Time

    method RecordSynced(trackId: int, row: LedgerRow)
      modifies this`ledger
      ensures ledger == Recorded(old(ledger), trackId, row)
    {
      if trackId !in ledger {
        ledger := ledger[trackId := row];
      }
    }

    method Enqueue(trackId: int, row: ReviewRow)
      modifies this`queue
      ensures queue == Enqueued(old(queue), trackId, row)
    {
      var status := if trackId in queue then queue[trackId].status else row.status;
      queue := queue[trackId := row.(status := status)];
    }

    method ResolveReview(trackId: int, status: Status) returns (found: bool)
      modifies this`queue
      ensures queue == Resolved(old(queue), trackId, status) && found == (trackId in old(queue))
    {
      found := trackId in queue;
      if found {
        queue := queue[trackId := queue[trackId].(status := status)];
      }
    }

    method SetWatermark(at: Time)
      modifies this`watermark
      ensures watermark == Stored(at)
    {
      watermark := Stored(at);
    }

    method ClearWatermark()
      modifies this`watermark
      ensures watermark == UNSET
    {
      watermark := UNSET;
    }

    /** InTx around the ledger rows and the watermark: work on a copy, publish
        it only if the commit lands. */
    method Commit(rows: seq<PendingRow>, advance: bool, high: Time, write: Write)
      modifies this`ledger, this`watermark
      ensures ledger == if write.Lands() then RecordedAll(old(ledger), rows) else old(ledger)
      ensures watermark == if write.Lands() && advance then Stored(high) else old(watermark)
    {
      var tx := ledger;
      for i := 0 to |rows|
        invariant tx == RecordedAll(ledger, rows[..i])
      {
        assert Front(rows[..i + 1]) == rows[..i] && Last(rows[..i + 1]) == rows[i];
        if rows[i].trackId !in tx {
          tx := tx[rows[i].trackId := rows[i].row];
        }
      }
      assert rows[..|rows|] == rows;
      if write.Lands() {
        ledger := tx;
        if advance {
          SetWatermark(high);
        }
      }
    }
  }

  class Engine {
    const difm: VoteList
    const spotify: Spotify
    const store: Store
    const th: Thresholds

    constructor (difm: VoteList, spotify: Spotify, store: Store, th: Thresholds)
      ensures this.difm == difm && this.spotify == spotify && this.store == store && this.th == th
    {
      this.difm, this.spotify, this.store, this.th := difm, spotify, store, th;
    }

    ghost function Now(): World
      reads difm, spotify, store
    {
      World(difm.votes, difm.clock, spotify.playlist, spotify.history, spotify.byHand,
            store.ledger, store.queue, store.watermark)
    }

    // ---------- other processes ----------

    method ApproveReview(trackId: int, candidate: int, read: Read, post: Write, record: Write, resolve: Write)
      modifies spotify`playlist, spotify`history, store`ledger, store`queue
      ensures Now() == Approving(old(Now()), trackId, candidate, read, post, record, resolve)
    {
      var chosen := Choose(store.queue, trackId, candidate);
      if chosen.Some? && read.Answered? {
        Place(trackId, chosen.value, post, record, resolve);
      }
    }

    method Place(trackId: int, row: LedgerRow, post: Write, record: Write, resolve: Write)
      modifies spotify`playlist, spotify`history, store`ledger, store`queue
      ensures Now() == Placing(old(Now()), trackId, row, post, record, resolve)
    {
      if row.spotifyId !in spotify.playlist {
        if post.Lands() {
          spotify.Append([row.spotifyId]);
        }
        if !post.Landed? {
          return;
        }
      }
      if record.Lands() {
        store.RecordSynced(trackId, row);
      }
      if !record.Landed? {
        return;
      }
      if resolve.Lands() {
        var _ := store.ResolveReview(trackId, Approved);
      }
    }

    method DisturbOnce(o: Outside)
      modifies difm, spotify, store`ledger, store`queue
      ensures Now() == Apply(old(Now()), o)
    {
      match o
      case NewVote(v) =>
        if CanBeCast(difm.votes, difm.clock, v) {
          difm.votes, difm.clock := [v] + difm.votes, v.at;
        }
      case HandAdd(id) =>
        spotify.Append([id]);
        spotify.byHand := spotify.byHand + multiset{id};
      case HandRemove(at) =>
        if at < |spotify.playlist| {
          spotify.playlist := spotify.playlist[..at] + spotify.playlist[at + 1..];
        }
      case Approve(trackId, candidate, read, post, record, resolve) =>
        ApproveReview(trackId, candidate, read, post, record, resolve);
      case Reject(trackId, resolve) =>
        if resolve.Lands() {
          var _ := store.ResolveReview(trackId, Rejected);
        }
    }

    method Disturb(os: seq<Outside>)
      modifies difm, spotify, store`ledger, store`queue
      ensures Now() == ApplyAll(old(Now()), os)
    {
      for i := 0 to |os|
        invariant ApplyAll(old(Now()), os) == ApplyAll(Now(), os[i..])
      {
        assert os[i..][1..] == os[i + 1..];
        DisturbOnce(os[i]);
      }
    }

    // ---------- the pass ----------

    /** The record closure. */
    method Record(loc: Locals, like: Track, candidates: seq<Scored>, reason: Reason, write: Write, dry: bool)
      returns (loc': Locals, halt: Halt)
      modifies store`queue
      ensures Progress(Now(), loc', halt) == Queueing(old(Now()), loc, like, candidates, reason, write, dry)
    {
      loc', halt := loc, Running;
      if !dry {
        if write.Lands() {
          store.Enqueue(like.trackId, ReviewRowFor(like, candidates, reason));
        }
        if write.Died() {
          return loc, Crashed;
        }
        if !write.Landed? {
          return loc.Fail(), Running;
        }
        loc' := loc'.Advance(like.likedAt);
      }
      loc' := loc'.Count(reason);
    }

    method Handle(loc: Locals, like: Track, ls: LikeScript, dry: bool) returns (loc': Locals, halt: Halt)
      modifies difm, spotify, store`ledger, store`queue
      ensures Progress(Now(), loc', halt) == LikeStep(old(Now()), loc, like, ls, th, dry)
    {
      Disturb(ls.outside);
      loc', halt := loc, Running;
      if like.skip {
        loc', halt := Record(loc, like, [], Skipped, ls.enqueue, dry);
        return;
      }
      if !ls.synced.Answered? {
        halt := if ls.synced.DiedReading? then Crashed else Stopped;
        return;
      }
      if like.trackId in store.ledger {
        loc' := loc.Advance(like.likedAt);
        return;
      }
      match ls.search(like)
      case Throttled => halt := Stopped;
      case GrantRefused => halt := Stopped;
      case DiedSearching => halt := Crashed;
      case SearchFailed => loc' := loc.Fail();
      case Found(candidates) =>
        if candidates != [] && candidates[0].score >= th.auto && candidates[0].id in loc.present {
          if !dry {
            loc' := loc.(rows := loc.rows + [RowFor(like, candidates[0])]);
          }
        } else if candidates != [] && candidates[0].score >= th.auto {
          var best := candidates[0];
          loc' := loc.(ids := loc.ids + [best.id], rows := loc.rows + [RowFor(like, best)],
                       present := loc.present + {best.id});
        } else if candidates != [] && candidates[0].score >= th.review {
          loc', halt := Record(loc, like, candidates, LowConfidence, ls.enqueue, dry);
        } else {
          loc', halt := Record(loc, like, candidates, NoMatch, ls.enqueue, dry);
        }
    }

    method DropArrived(ids: seq<SpotifyId>, current: set<SpotifyId>) returns (absent: seq<SpotifyId>)
      ensures absent == Without(ids, current)
    {
      absent := [];
      for i := 0 to |ids|
        invariant absent == Without(ids[..i], current)
      {
        assert Front(ids[..i + 1]) == ids[..i] && Last(ids[..i + 1]) == ids[i];
        if ids[i] !in current {
          absent := absent + [ids[i]];
        }
      }
      assert ids[..|ids|] == ids;
    }

    method Close(loc: Locals, since: Time, s: PassScript, posted: seq<SpotifyId>) returns (stats: Stats, end: PassEnd)
      modifies store`ledger, store`watermark
      ensures PassOutcome(Now(), stats, end, posted) == Committing(old(Now()), loc, since, s, posted)
    {
      stats := loc.stats;
      var high := loc.high;
      for i := 0 to |loc.rows|
        invariant high == AdvancedOver(loc.high, loc.rows[..i])
      {
        assert Front(loc.rows[..i + 1]) == loc.rows[..i] && Last(loc.rows[..i + 1]) == loc.rows[i];
        if loc.rows[i].likedAt > high {
          high := loc.rows[i].likedAt;
        }
      }
      assert loc.rows[..|loc.rows|] == loc.rows;
      if s.canceled {
        return stats, Aborted;
      }
      var advance := loc.clean && high > since;
      if |loc.rows| > 0 || advance {
        store.Commit(loc.rows, advance, high, s.commit);
        if !s.commit.Landed? {
          return stats, if s.commit.Died() then Died else Aborted;
        }
      }
      end := if loc.clean then Clean else Incomplete;
    }

    method Add(loc: Locals, since: Time, s: PassScript) returns (stats: Stats, end: PassEnd, posted: seq<SpotifyId>)
      modifies difm, spotify, store
      ensures PassOutcome(Now(), stats, end, posted) == Adding(old(Now()), loc, since, s)
    {
      var loc', posted' := loc, [];
      if |loc.ids| > 0 {
        Disturb(s.beforeReread);
        if !s.reread.Answered? {
          return loc.stats, if s.reread.DiedReading? then Died else Aborted, [];
        }
        ghost var before := Now();
        var absent := DropArrived(loc.ids, Elements(spotify.playlist));
        if |absent| > 0 {
          var posting := spotify.AddToPlaylist(absent, s.posts);
          posted' := posting.landed;
          if !posting.end.AllPosted? {
            return loc.stats, if posting.end.PostDied? then Died else Aborted, posted';
          }
        }
        assert Now() == Appended(before, posted');
        loc' := loc.(stats := loc.stats.(added := |absent|));
      }
      Disturb(s.beforeCommit);
      stats, end := Close(loc', since, s, posted');
      posted := posted';
    }

    /** RunOnce's pass proper, for any behaviour of everything around it. */
    method Pass(s: PassScript, dry: bool) returns (stats: Stats, end: PassEnd, posted: seq<SpotifyId>)
      modifies difm, spotify, store
      ensures PassOutcome(Now(), stats, end, posted) == RunPass(old(Now()), s, th, dry)
    {
      stats, posted := Stats(0, 0, 0, 0), [];
      if !s.reload.Answered? {
        return stats, if s.reload.DiedReading? then Died else Aborted, [];
      }
      var since := store.watermark;
      if !s.start.Landed? {
        return stats, if s.start.Died() then Died else Aborted, [];
      }
      var walk, _ := ListLikedTracks(ServerFor(difm.votes, s.sizes, s.faults), since);
      stats, end, posted := PassOver(walk, since, s, dry);
    }

    /** What follows the walk. */
    method PassOver(walk: WalkResult, since: Time, s: PassScript, dry: bool)
      returns (stats: Stats, end: PassEnd, posted: seq<SpotifyId>)
      requires since == store.watermark
      modifies difm, spotify, store
      ensures PassOutcome(Now(), stats, end, posted) == Fetched(old(Now()), walk, s, th, dry)
    {
      stats, posted := Stats(0, 0, 0, 0), [];
      match walk.end {
        case Dropped =>
        case Failed(fault) => return stats, if fault.Killed? then Died else Aborted, [];
        case Truncated => return stats, Aborted, [];
        case Complete =>
      }
      stats := stats.(fetched := |walk.tracks|);
      Disturb(s.afterWalk);
      if !s.firstRead.Answered? {
        return stats, if s.firstRead.DiedReading? then Died else Aborted, [];
      }
      stats, end, posted := HandleAll(walk, since, s, dry);
    }

    method HandleAll(walk: WalkResult, since: Time, s: PassScript, dry: bool)
      returns (stats: Stats, end: PassEnd, posted: seq<SpotifyId>)
      modifies difm, spotify, store
      ensures PassOutcome(Now(), stats, end, posted) == Handling(old(Now()), walk, since, s, th, dry)
    {
      var likes := walk.tracks;
      var loc := FirstLocals(walk.end.Complete?, since, spotify.playlist, |likes|);
      ghost var loc0 := loc;
      var halt := Running;
      var i := 0;
      while i < |likes| && halt.Running?
        invariant 0 <= i <= |likes|
        invariant Progress(Now(), loc, halt) == LikeSteps(old(Now()), loc0, likes[..i], s.likes, th, dry)
      {
        assert Front(likes[..i + 1]) == likes[..i] && Last(likes[..i + 1]) == likes[i];
        loc, halt := Handle(loc, likes[i], s.likes(i), dry);
        i := i + 1;
      }
      HaltedEarly(old(Now()), loc0, likes, s.likes, th, dry, i);
      if !halt.Running? {
        return loc.stats, if halt.Crashed? then Died else Aborted, [];
      }
      if dry {
        return loc.stats.(added := |loc.ids|), DryRun, [];
      }
      stats, end, posted := Add(loc, since, s);
    }
  }

  function RestFrom(ids: seq<SpotifyId>, start: nat): seq<SpotifyId> {
    if start < |ids| then ids[start..] else []
  }

  lemma NextBatch(ids: seq<SpotifyId>, start: nat, end: nat, posts: nat -> Write, batch: nat, p: Posting)
    requires start < |ids| && end == if start + BATCH < |ids| then start + BATCH else |ids|
    ensures Then(p, PostFrom(RestFrom(ids, start), posts, batch)) ==
            Then(Then(p, Batch(ids[start..end], posts(batch))),
                 PostFrom(RestFrom(ids, start + BATCH), posts, batch + 1))
  {
    var rest, n := ids[start..], end - start;
    assert rest[..n] == ids[start..end] && rest[n..] == RestFrom(ids, start + BATCH);
    var one, more := Batch(rest[..n], posts(batch)), PostFrom(rest[n..], posts, batch + 1);
    assert p.landed + (one.landed + more.landed) == (p.landed + one.landed) + more.landed;
  }

  /** A halt part-way is where the whole list halts. */
  lemma {:induction false} HaltedEarly(w: World, loc: Locals, likes: seq<Track>, scripts: nat -> LikeScript,
                                       th: Thresholds, dry: bool, i: nat)
    requires i <= |likes|
    requires i == |likes| || !LikeSteps(w, loc, likes[..i], scripts, th, dry).halt.Running?
    ensures LikeSteps(w, loc, likes, scripts, th, dry) == LikeSteps(w, loc, likes[..i], scripts, th, dry)
  {
    if i == |likes| {
      assert likes[..i] == likes;
    } else {
      assert Front(likes)[..i] == likes[..i];
      HaltedEarly(w, loc, Front(likes), scripts, th, dry, i);
    }
  }
}
