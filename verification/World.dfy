/** The durable state around the sync daemon, and what everyone but the
    daemon may do to it. */
module World {
  import opened Common
  import opened Difm
  import opened DifmWalk

  datatype SpotifyId = SpotifyId(text: string)

  datatype Scored = Scored(id: SpotifyId, score: real)

  datatype LedgerRow = LedgerRow(voteId: int, spotifyId: SpotifyId, likedAt: Time, score: real)

  datatype Reason = Skipped | LowConfidence | NoMatch

  datatype Status = Pending | Approved | Rejected

  datatype ReviewRow = ReviewRow(
    voteId: int, candidates: seq<Scored>, bestScore: real, reason: Reason, status: Status, likedAt: Time)

  /** votes is the DI.fm side and clock the time of its newest vote; history
      lists every id that was ever put in the playlist, byHand the ones put
      there by hand. The ledger and the review
      queue are keyed by DI.fm track id, for the one account and playlist. */
  datatype World = World(
    votes: seq<Vote>, clock: Time,
    playlist: seq<SpotifyId>, history: seq<SpotifyId>, byHand: multiset<SpotifyId>,
    ledger: map<int, LedgerRow>, queue: map<int, ReviewRow>, watermark: Time)

  // ---------- store operations ----------

  /** RecordSynced: a repeated row is a no-op. */
  function Recorded(ledger: map<int, LedgerRow>, trackId: int, row: LedgerRow): map<int, LedgerRow> {
    if trackId in ledger then ledger else ledger[trackId := row]
  }

  /** Enqueue: a repeated row refreshes everything but the human's decision. */
  function Enqueued(queue: map<int, ReviewRow>, trackId: int, row: ReviewRow): map<int, ReviewRow> {
    queue[trackId := if trackId in queue then row.(status := queue[trackId].status) else row]
  }

  function Resolved(queue: map<int, ReviewRow>, trackId: int, status: Status): map<int, ReviewRow> {
    if trackId in queue then queue[trackId := queue[trackId].(status := status)] else queue
  }

  function Appended(w: World, ids: seq<SpotifyId>): World {
    w.(playlist := w.playlist + ids, history := w.history + ids)
  }

  // ---------- everyone else ----------

  /** What may happen beside a pass: a new vote, a hand edit of the playlist,
      and the review commands. Removing takes one item, by position. */
  datatype Outside =
    | NewVote(vote: Vote)
    | HandAdd(id: SpotifyId)
    | HandRemove(at: nat)
    | Approve(trackId: int, candidate: int, read: Read, post: Write, record: Write, resolve: Write)
    | Reject(trackId: int, resolve: Write)

  /** A vote can be cast now: later than every other, with an id of its own. */
  predicate CanBeCast(votes: seq<Vote>, clock: Time, v: Vote) {
    && v.at > clock && v.at > SECOND && Truthful(v)
    && (RowId(v.row) != 0 ==> RowId(v.row) !in IdsOf(votes))
  }

  function ApprovedRow(item: ReviewRow, chosen: Scored): LedgerRow {
    LedgerRow(item.voteId, chosen.id, item.likedAt, chosen.score)
  }

  /** approveReview once the candidate is chosen: playlist, then ledger, then
      the queue row, stopping at the first step that is not acknowledged. */
  function Placing(w: World, trackId: int, row: LedgerRow, post: Write, record: Write, resolve: Write): World {
    var present := row.spotifyId in w.playlist;
    var w1 := if !present && post.Lands() then Appended(w, [row.spotifyId]) else w;
    if !present && !post.Landed? then w1
    else
      var w2 := if record.Lands() then w1.(ledger := Recorded(w1.ledger, trackId, row)) else w1;
      if !record.Landed? then w2
      else if resolve.Lands() then w2.(queue := Resolved(w2.queue, trackId, Approved)) else w2
  }

  /** The row an approval would record, if the item and candidate exist. */
  function Choose(queue: map<int, ReviewRow>, trackId: int, candidate: int): Option<LedgerRow> {
    if trackId !in queue then None
    else
      var item := queue[trackId];
      if candidate < 1 || candidate > |item.candidates| then None
      else Some(ApprovedRow(item, item.candidates[candidate - 1]))
  }

  function Approving(w: World, trackId: int, candidate: int,
                     read: Read, post: Write, record: Write, resolve: Write): World
  {
    var chosen := Choose(w.queue, trackId, candidate);
    if chosen.None? || !read.Answered? then w
    else Placing(w, trackId, chosen.value, post, record, resolve)
  }

  /** A step that is not possible changes nothing. */
  function Apply(w: World, o: Outside): World {
    match o
    case NewVote(v) => if CanBeCast(w.votes, w.clock, v) then w.(votes := [v] + w.votes, clock := v.at) else w
    case HandAdd(id) => Appended(w, [id]).(byHand := w.byHand + multiset{id})
    case HandRemove(at) => if at < |w.playlist| then w.(playlist := w.playlist[..at] + w.playlist[at + 1..]) else w
    case Approve(trackId, candidate, read, post, record, resolve) =>
      Approving(w, trackId, candidate, read, post, record, resolve)
    case Reject(trackId, resolve) =>
      if resolve.Lands() then w.(queue := Resolved(w.queue, trackId, Rejected)) else w
  }

  function ApplyAll(w: World, os: seq<Outside>): World
    decreases |os|
  {
    if os == [] then w else ApplyAll(Apply(w, os[0]), os[1..])
  }
}
