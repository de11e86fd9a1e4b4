/** What an approval places and what a rejection leaves: the operator's choice
    among the candidates of a queued like. */
module Approvals {
  import opened Common
  import opened Difm
  import opened DifmWalk
  import opened World
  import opened Pass
  import opened PlaylistSafety
  import opened Filing

  /** The item and its n-th candidate, counted from one, exist. */
  predicate Offered(w: World, trackId: int, n: int) {
    trackId in w.queue && 1 <= n <= |w.queue[trackId].candidates|
  }

  /** The row names the queued vote and the candidate chosen. */
  predicate Chosen(row: LedgerRow, item: ReviewRow, n: int)
    requires 1 <= n <= |item.candidates|
  {
    && row.spotifyId == item.candidates[n - 1].id && row.score == item.candidates[n - 1].score
    && row.voteId == item.voteId && row.likedAt == item.likedAt
  }

  /** An approval whose every step is acknowledged adds the n-th candidate to the
      playlist unless it is there, records it unless the track is recorded, marks
      the item approved, and touches nothing else. */
  lemma ApprovalPlacesTheChosen(w: World, trackId: int, n: int)
    requires Offered(w, trackId, n)
    ensures var w' := Apply(w, Approve(trackId, n, Answered, Landed, Landed, Landed));
            var item := w.queue[trackId];
            var id := item.candidates[n - 1].id;
            && w'.playlist == (if id in w.playlist then w.playlist else w.playlist + [id])
            && w'.ledger.Keys == w.ledger.Keys + {trackId}
            && (if trackId in w.ledger then w'.ledger == w.ledger else Chosen(w'.ledger[trackId], item, n))
            && (forall k :: k in w.ledger ==> w'.ledger[k] == w.ledger[k])
            && w'.queue == w.queue[trackId := item.(status := Approved)]
            && w'.votes == w.votes && w'.clock == w.clock && w'.watermark == w.watermark && w'.byHand == w.byHand
  {
  }

  /** Whatever fails, an approval does its steps in order: nothing is recorded
      before its track is in the playlist and known to be, nothing decided before
      it is recorded. Without an item, such a candidate or a playlist to read it does
      nothing. */
  lemma ApprovalKeepsItsOrder(w: World, trackId: int, n: int, read: Read, post: Write, record: Write, resolve: Write)
    ensures var w' := Apply(w, Approve(trackId, n, read, post, record, resolve));
            && (w' != w ==> Offered(w, trackId, n) && read.Answered?)
            && (w'.playlist != w.playlist ==>
                  w'.playlist == w.playlist + [w.queue[trackId].candidates[n - 1].id] && post.Lands()
                  && w.queue[trackId].candidates[n - 1].id !in w.playlist)
            && (w'.ledger != w.ledger ==>
                  record.Lands() && trackId !in w.ledger && w'.ledger.Keys == w.ledger.Keys + {trackId}
                  && Chosen(w'.ledger[trackId], w.queue[trackId], n)
                  && w'.ledger[trackId].spotifyId in w'.playlist
                  && (w'.ledger[trackId].spotifyId in w.playlist || post.Landed?))
            && (w'.queue != w.queue ==>
                  resolve.Lands() && trackId in w'.ledger && record.Landed?
                  && w'.queue == w.queue[trackId := w.queue[trackId].(status := Approved)])
  {
  }

  /** A rejection marks its item and does nothing else. */
  lemma RejectionOnlyMarks(w: World, trackId: int, resolve: Write)
    ensures var w' := Apply(w, Reject(trackId, resolve));
            && w' == w.(queue := w'.queue) && w'.queue.Keys == w.queue.Keys
            && (forall id :: id in w.queue && (id != trackId || !resolve.Lands()) ==> w'.queue[id] == w.queue[id])
            && (trackId in w.queue && resolve.Lands() ==>
                  w'.queue[trackId] == w.queue[trackId].(status := Rejected))
  {
  }

  /** From search to playlist: when a like's search falls short and its queue
      write lands, approving the n-th choice places the n-th candidate of that
      search, for n up to five, under the like's vote; any other n does nothing. */
  lemma ChoosingPlacesWhatWasFound(w0: World, loc: Locals, like: Track, ls: LikeScript, th: Thresholds, n: int)
    requires !like.skip && ls.synced.Answered? && ls.enqueue.Landed?
    requires like.trackId !in ApplyAll(w0, ls.outside).ledger && FallsShort(ls, like, th)
    ensures var w := LikeStep(w0, loc, like, ls, th, false).w;
            var w' := Apply(w, Approve(like.trackId, n, Answered, Landed, Landed, Landed));
            var answer := ls.search(like).candidates;
            if 1 <= n <= 5 && n <= |answer| then
              && answer[n - 1].id in w'.playlist
              && w'.ledger == w.ledger[like.trackId := w'.ledger[like.trackId]]
              && w'.ledger[like.trackId].spotifyId == answer[n - 1].id
              && w'.ledger[like.trackId].score == answer[n - 1].score
              && w'.ledger[like.trackId].voteId == like.voteId
              && StoredAs(like.likedAt, w'.ledger[like.trackId].likedAt)
            else w' == w
  {
    var w := LikeStep(w0, loc, like, ls, th, false).w;
    ShortLikeIsFiled(w0, loc, like, ls, th);
    if Offered(w, like.trackId, n) {
      ApprovalPlacesTheChosen(w, like.trackId, n);
    } else {
      ApprovalKeepsItsOrder(w, like.trackId, n, Answered, Landed, Landed, Landed);
    }
  }
}
