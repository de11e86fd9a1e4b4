/** One sync pass as a function of the state it starts from and of everything
    its external calls did. The engine's method is proved to compute it. */
module Pass {
  import opened Common
  import opened Difm
  import opened DifmWalk
  import opened World

  const BATCH := 100
  const CANDIDATES_KEPT := 5

  datatype Thresholds = Thresholds(auto: real, review: real)

  /** Candidates come best first. */
  datatype SearchReply = Found(candidates: seq<Scored>) | Throttled | GrantRefused | SearchFailed | DiedSearching

  /** What happens while one like is handled. */
  datatype LikeScript = LikeScript(
    outside: seq<Outside>, synced: Read, search: Track -> SearchReply, enqueue: Write)

  /** Everything a pass does not decide itself. */
  datatype PassScript = PassScript(
    reload: Read, start: Write,
    sizes: nat -> nat, faults: nat -> Option<Fault>,
    afterWalk: seq<Outside>, firstRead: Read,
    likes: nat -> LikeScript,
    beforeReread: seq<Outside>, reread: Read,
    posts: nat -> Write,
    beforeCommit: seq<Outside>, canceled: bool, commit: Write)

  datatype Stats = Stats(fetched: nat, added: nat, queued: nat, skipped: nat)

  datatype PassEnd = Clean | Incomplete | Aborted | DryRun | Died

  datatype PassOutcome = PassOutcome(world: World, stats: Stats, end: PassEnd, posted: seq<SpotifyId>)

  /** A ledger row waiting for the commit, with the like's exact time. */
  datatype PendingRow = PendingRow(trackId: int, likedAt: Time, row: LedgerRow)

  /** The pass's own variables: passClean, highWater, inPlaylist, pendingIDs,
      pendingLedge and the counters. */
  datatype Locals = Locals(
    clean: bool, high: Time, present: set<SpotifyId>, ids: seq<SpotifyId>, rows: seq<PendingRow>, stats: Stats)
  {
    function Advance(t: Time): Locals {
      if t > high then this.(high := t) else this
    }

    function Fail(): Locals {
      this.(clean := false)
    }

    function Count(reason: Reason): Locals {
      this.(stats := if reason.Skipped? then stats.(skipped := stats.skipped + 1)
                     else stats.(queued := stats.queued + 1))
    }
  }

  datatype Halt = Running | Stopped | Crashed

  datatype Progress = Progress(w: World, loc: Locals, halt: Halt)

  function ReviewRowFor(like: Track, candidates: seq<Scored>, reason: Reason): ReviewRow {
    ReviewRow(like.voteId,
              if |candidates| > CANDIDATES_KEPT then candidates[..CANDIDATES_KEPT] else candidates,
              if candidates == [] then 0.0 else candidates[0].score,
              reason, Pending, Stored(like.likedAt))
  }

  function RowFor(like: Track, best: Scored): PendingRow {
    PendingRow(like.trackId, like.likedAt, LedgerRow(like.voteId, best.id, Stored(like.likedAt), best.score))
  }

  /** The record closure: queue a like that is not being added. */
  function Queueing(w: World, loc: Locals, like: Track, candidates: seq<Scored>, reason: Reason,
                    write: Write, dry: bool): Progress {
    if dry then Progress(w, loc.Count(reason), Running)
    else
      var row := ReviewRowFor(like, candidates, reason);
      var w' := if write.Lands() then w.(queue := Enqueued(w.queue, like.trackId, row)) else w;
      if write.Died() then Progress(w', loc, Crashed)
      else if write.Landed? then Progress(w', loc.Advance(like.likedAt).Count(reason), Running)
      else Progress(w', loc.Fail(), Running)
  }

  /** The verdict on a searched like. */
  function Deciding(w: World, loc: Locals, like: Track, candidates: seq<Scored>, th: Thresholds,
                    write: Write, dry: bool): Progress {
    if candidates != [] && candidates[0].score >= th.auto then
      var best := candidates[0];
      if best.id in loc.present then
        Progress(w, if dry then loc else loc.(rows := loc.rows + [RowFor(like, best)]), Running)
      else
        Progress(w, loc.(ids := loc.ids + [best.id], rows := loc.rows + [RowFor(like, best)],
                         present := loc.present + {best.id}), Running)
    else if candidates != [] && candidates[0].score >= th.review then
      Queueing(w, loc, like, candidates, LowConfidence, write, dry)
    else
      Queueing(w, loc, like, candidates, NoMatch, write, dry)
  }

  function LikeStep(w0: World, loc: Locals, like: Track, ls: LikeScript, th: Thresholds, dry: bool): Progress {
    var w := ApplyAll(w0, ls.outside);
    if like.skip then Queueing(w, loc, like, [], Skipped, ls.enqueue, dry)
    else match ls.synced
      case ReadFailed => Progress(w, loc, Stopped)
      case DiedReading => Progress(w, loc, Crashed)
      case Answered =>
        if like.trackId in w.ledger then Progress(w, loc.Advance(like.likedAt), Running)
        else match ls.search(like)
          case Throttled => Progress(w, loc, Stopped)
          case GrantRefused => Progress(w, loc, Stopped)
          case DiedSearching => Progress(w, loc, Crashed)
          case SearchFailed => Progress(w, loc.Fail(), Running)
          case Found(candidates) => Deciding(w, loc, like, candidates, th, ls.enqueue, dry)
  }

  /** The state after the first n likes, stopping where one of them stops. */
  function LikeSteps(w: World, loc: Locals, likes: seq<Track>, scripts: nat -> LikeScript,
                     th: Thresholds, dry: bool): Progress {
    if likes == [] then Progress(w, loc, Running)
    else
      var p := LikeSteps(w, loc, Front(likes), scripts, th, dry);
      if !p.halt.Running? then p
      else LikeStep(p.w, p.loc, Last(likes), scripts(|likes| - 1), th, dry)
  }

  datatype PostEnd = AllPosted | PostFailed | PostDied

  datatype Posting = Posting(landed: seq<SpotifyId>, end: PostEnd)

  /** One request: what landed of it, and whether the next may follow. */
  function Batch(uris: seq<SpotifyId>, write: Write): Posting {
    Posting(if write.Lands() then uris else [],
            if write.Died() then PostDied else if write.Landed? then AllPosted else PostFailed)
  }

  function Then(first: Posting, rest: Posting): Posting {
    if first.end.AllPosted? then Posting(first.landed + rest.landed, rest.end) else first
  }

  /** AddToPlaylist from its batch-th request on. */
  function PostFrom(ids: seq<SpotifyId>, posts: nat -> Write, batch: nat): Posting {
    if ids == [] then Posting([], AllPosted)
    else
      var n := if |ids| < BATCH then |ids| else BATCH;
      Then(Batch(ids[..n], posts(batch)), PostFrom(ids[n..], posts, batch + 1))
  }

  /** The ids another process did not add in the meantime. */
  function Without(ids: seq<SpotifyId>, current: set<SpotifyId>): seq<SpotifyId> {
    if ids == [] then []
    else Without(Front(ids), current) + if Last(ids) in current then [] else [Last(ids)]
  }

  function RecordedAll(ledger: map<int, LedgerRow>, rows: seq<PendingRow>): map<int, LedgerRow> {
    if rows == [] then ledger
    else Recorded(RecordedAll(ledger, Front(rows)), Last(rows).trackId, Last(rows).row)
  }

  /** The high-water mark once every pending row counts. */
  function AdvancedOver(high: Time, rows: seq<PendingRow>): Time {
    if rows == [] then high
    else
      var h := AdvancedOver(high, Front(rows));
      if Last(rows).likedAt > h then Last(rows).likedAt else h
  }

  /** The single transaction that ends a pass. */
  function Committed(w: World, rows: seq<PendingRow>, advance: bool, high: Time): World {
    w.(ledger := RecordedAll(w.ledger, rows), watermark := if advance then Stored(high) else w.watermark)
  }

  /** The last part: ledger rows and watermark in one transaction. */
  function Committing(w: World, loc: Locals, since: Time, s: PassScript, posted: seq<SpotifyId>): PassOutcome {
    var high := AdvancedOver(loc.high, loc.rows);
    var advance := loc.clean && high > since;
    var end := if loc.clean then Clean else Incomplete;
    if s.canceled then PassOutcome(w, loc.stats, Aborted, posted)
    else if loc.rows == [] && !advance then PassOutcome(w, loc.stats, end, posted)
    else
      var w' := if s.commit.Lands() then Committed(w, loc.rows, advance, high) else w;
      PassOutcome(w', loc.stats, if s.commit.Died() then Died else if s.commit.Landed? then end else Aborted, posted)
  }

  /** The part that writes to Spotify, and what follows it. */
  function Adding(w: World, loc: Locals, since: Time, s: PassScript): PassOutcome {
    if loc.ids == [] then Committing(ApplyAll(w, s.beforeCommit), loc, since, s, [])
    else
      var w1 := ApplyAll(w, s.beforeReread);
      match s.reread
      case ReadFailed => PassOutcome(w1, loc.stats, Aborted, [])
      case DiedReading => PassOutcome(w1, loc.stats, Died, [])
      case Answered =>
        var absent := Without(loc.ids, Elements(w1.playlist));
        var posting := PostFrom(absent, s.posts, 0);
        var w2 := Appended(w1, posting.landed);
        match posting.end
        case PostFailed => PassOutcome(w2, loc.stats, Aborted, posting.landed)
        case PostDied => PassOutcome(w2, loc.stats, Died, posting.landed)
        case AllPosted =>
          var counted := loc.(stats := loc.stats.(added := |absent|));
          Committing(ApplyAll(w2, s.beforeCommit), counted, since, s, posting.landed)
  }

  function FirstLocals(clean: bool, since: Time, playlist: seq<SpotifyId>, fetched: nat): Locals {
    Locals(clean, since, Elements(playlist), [], [], Stats(fetched, 0, 0, 0))
  }

  /** A pass over the likes it fetched. */
  function Handling(w: World, walk: WalkResult, since: Time, s: PassScript, th: Thresholds, dry: bool): PassOutcome {
    var loc := FirstLocals(walk.end.Complete?, since, w.playlist, |walk.tracks|);
    var p := LikeSteps(w, loc, walk.tracks, s.likes, th, dry);
    if p.halt.Crashed? then PassOutcome(p.w, p.loc.stats, Died, [])
    else if p.halt.Stopped? then PassOutcome(p.w, p.loc.stats, Aborted, [])
    else if dry then PassOutcome(p.w, p.loc.stats.(added := |p.loc.ids|), DryRun, [])
    else Adding(p.w, p.loc, since, s)
  }

  /** What follows the walk. */
  function Fetched(w: World, walk: WalkResult, s: PassScript, th: Thresholds, dry: bool): PassOutcome {
    var none := Stats(0, 0, 0, 0);
    if walk.end == Failed(Killed) then PassOutcome(w, none, Died, [])
    else if walk.end.Failed? || walk.end.Truncated? then PassOutcome(w, none, Aborted, [])
    else
      var w1 := ApplyAll(w, s.afterWalk);
      var fetched := none.(fetched := |walk.tracks|);
      match s.firstRead
      case ReadFailed => PassOutcome(w1, fetched, Aborted, [])
      case DiedReading => PassOutcome(w1, fetched, Died, [])
      case Answered => Handling(w1, walk, w.watermark, s, th, dry)
  }

  function RunPass(w: World, s: PassScript, th: Thresholds, dry: bool): PassOutcome {
    var none := Stats(0, 0, 0, 0);
    if s.reload.DiedReading? || (s.reload.Answered? && s.start.Died()) then PassOutcome(w, none, Died, [])
    else if s.reload.ReadFailed? || !s.start.Landed? then PassOutcome(w, none, Aborted, [])
    else Fetched(w, Walk(ServerFor(w.votes, s.sizes, s.faults), w.watermark), s, th, dry)
  }
}
