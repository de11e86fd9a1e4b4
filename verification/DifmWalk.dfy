/** The paginated walk against a server that really holds a vote list:
    it returns what reading everything and filtering would return. */
module DifmWalk {
  import opened Common
  import opened Difm

  /** A vote as the server holds it: when it was cast, and the record sent
      for it. */
  datatype Vote = Vote(at: Time, row: Row)

  predicate NewestFirst(votes: seq<Vote>) {
    forall i, j :: 0 <= i < j < |votes| ==> votes[i].at >= votes[j].at
  }

  predicate IdsDiffer(votes: seq<Vote>) {
    forall i, j :: 0 <= i < j < |votes| && RowId(votes[i].row) != 0 ==> RowId(votes[i].row) != RowId(votes[j].row)
  }

  /** A record that decodes has an id, and a timestamp that parses is the
      time of the vote. */
  predicate Truthful(v: Vote) {
    v.row.Decoded? ==> v.row.wire.id != 0 && (v.row.wire.createdAt.Some? ==> v.row.wire.createdAt.value == v.at)
  }

  predicate WellFormed(votes: seq<Vote>) {
    NewestFirst(votes) && IdsDiffer(votes) && forall v :: v in votes ==> Truthful(v)
  }

  /** A usable record has an id and carries the time of its vote: all that most
      of what follows needs. */
  predicate Honest(v: Vote) {
    Judge(v.row).RowOk? ==> RowId(v.row) != 0 && Judge(v.row).track.likedAt == v.at
  }

  predicate Ordered(votes: seq<Vote>) {
    NewestFirst(votes) && IdsDiffer(votes) && forall v :: v in votes ==> Honest(v)
  }

  lemma WellFormedIsOrdered(votes: seq<Vote>)
    requires WellFormed(votes)
    ensures Ordered(votes)
  {
  }

  // ---------- the simple form: read everything, filter ----------

  /** Votes newer than the watermark, readable or not. */
  predicate After(v: Vote, since: Time) {
    since == UNSET || v.at > since
  }

  function LikesAfter(votes: seq<Vote>, since: Time): seq<Track> {
    if votes == [] then []
    else
      var v := Last(votes);
      LikesAfter(Front(votes), since) + if Judge(v.row).RowOk? && After(v, since) then [Judge(v.row).track] else []
  }

  function Unreadable(votes: seq<Vote>): nat {
    if votes == [] then 0
    else Unreadable(Front(votes)) + if Judge(Last(votes).row).RowDropped? then 1 else 0
  }

  function RowsOf(votes: seq<Vote>): (rows: seq<Row>)
    ensures |rows| == |votes|
  {
    seq(|votes|, i requires 0 <= i < |votes| => votes[i].row)
  }

  function IdsOf(votes: seq<Vote>): set<int> {
    set v | v in votes && RowId(v.row) != 0 :: RowId(v.row)
  }

  // ---------- the server ----------

  /** Where a page starts, for pages holding sizes(k) + 1 records. */
  function Offset(len: nat, sizes: nat -> nat, page: nat): (off: nat)
    ensures off <= len
  {
    if page <= 1 then 0
    else
      var e := Offset(len, sizes, page - 1) + sizes(page - 1) + 1;
      if e <= len then e else len
  }

  function PageVotes(votes: seq<Vote>, sizes: nat -> nat, page: nat): seq<Vote>
    requires page >= 1
  {
    OffsetsGrow(|votes|, sizes, page);
    votes[Offset(|votes|, sizes, page)..Offset(|votes|, sizes, page + 1)]
  }

  lemma OffsetsGrow(len: nat, sizes: nat -> nat, page: nat)
    requires page >= 1
    ensures Offset(len, sizes, page) <= Offset(len, sizes, page + 1)
    ensures Offset(len, sizes, page) == Offset(len, sizes, page + 1) ==> Offset(len, sizes, page) == len
  {
  }

  /** A server holding votes, cutting them into non-empty pages, and failing
      where faults says so. */
  function ServerFor(votes: seq<Vote>, sizes: nat -> nat, faults: nat -> Option<Fault>): nat -> PageReply {
    (page: nat) =>
      if faults(page).Some? then NoPage(faults(page).value)
      else if page == 0 then Page([])
      else Page(RowsOf(PageVotes(votes, sizes, page)))
  }

  /** A page none of whose records has a recoverable id: the walk cannot tell
      it from a server repeating itself. */
  predicate Stalled(page: seq<Vote>) {
    IdsOf(page) == {}
  }

  predicate AllBelow(page: seq<Vote>, since: Time) {
    since != UNSET && LikesAfter(page, UNSET) != [] && LikesAfter(page, since) == []
  }

  /** Whether the walk stops by itself on a page with records. */
  function StopRule(votes: seq<Vote>, sizes: nat -> nat, since: Time): nat -> bool {
    (k: nat) => k >= 1 && (Stalled(PageVotes(votes, sizes, k)) || AllBelow(PageVotes(votes, sizes, k), since))
  }

  /** Whether the walk goes past a page: it does not past the page limit, an
      empty page, or one it stops on by itself. */
  predicate Halts(len: nat, sizes: nat -> nat, stops: nat -> bool, page: nat) {
    page > MAX_PAGES || Offset(len, sizes, page) == Offset(len, sizes, page + 1) || stops(page)
  }

  /** Where it has read to when it goes past a page no more. */
  function HaltAt(len: nat, sizes: nat -> nat, page: nat): (stop: Stop)
    ensures stop.at <= len
  {
    if page > MAX_PAGES then Stop(Offset(len, sizes, page), false) else Stop(Offset(len, sizes, page + 1), true)
  }

  function ReadOn(len: nat, sizes: nat -> nat, stops: nat -> bool, page: nat): (stop: Stop)
    ensures stop.at <= len
    decreases MAX_PAGES + 1 - page
  {
    if Halts(len, sizes, stops, page) then HaltAt(len, sizes, page) else ReadOn(len, sizes, stops, page + 1)
  }

  /** How far a walk reads from a page on when no page fails, and whether it
      stops of its own accord. */
  function ReadTo(votes: seq<Vote>, sizes: nat -> nat, since: Time, page: nat): (stop: Stop)
    ensures stop.at <= |votes|
  {
    ReadOn(|votes|, sizes, StopRule(votes, sizes, since), page)
  }

  /** What holds where a walk halts, and is handed back over every page it goes
      past, holds where it has read to. */
  lemma {:induction false} ReadOnReaches(
      len: nat, sizes: nat -> nat, stops: nat -> bool, page: nat, good: (nat, Stop) -> bool)
    requires page >= 1
    requires forall k: nat :: k >= 1 && Halts(len, sizes, stops, k) ==> good(k, HaltAt(len, sizes, k))
    requires forall k: nat, stop :: k >= 1 && !Halts(len, sizes, stops, k) && good(k + 1, stop) ==> good(k, stop)
    ensures good(page, ReadOn(len, sizes, stops, page))
    decreases MAX_PAGES + 1 - page
  {
    if !Halts(len, sizes, stops, page) {
      ReadOnReaches(len, sizes, stops, page + 1, good);
    }
  }

  datatype Stop = Stop(at: nat, complete: bool)

  /** What a walk that read exactly these votes has gathered. */
  function ReadSoFar(votes: seq<Vote>, since: Time): Walked {
    Walked(IdsOf(votes), LikesAfter(votes, since), Unreadable(votes))
  }

  /** What a page of votes not met before contributes. */
  function Summary(page: seq<Vote>, since: Time): Contribution {
    Contribution(IdsOf(page), LikesAfter(page, UNSET), LikesAfter(page, since), Unreadable(page))
  }

  function Outcome(votes: seq<Vote>, since: Time, stop: Stop): WalkResult
    requires stop.at <= |votes|
  {
    ReadSoFar(votes[..stop.at], since).Finish(stop.complete)
  }

  /** Nothing newer lies past the stop, or it stopped on a record without an
      id and says so. */
  predicate SoundStop(votes: seq<Vote>, since: Time, at: nat)
    requires at <= |votes|
  {
    || (forall v :: v in votes[at..] ==> !After(v, since))
    || (at > 0 && RowId(votes[at - 1].row) == 0 && Unreadable(votes[..at]) > 0)
  }

  // ---------- one page ----------

  lemma {:induction false} LikesConcat(a: seq<Vote>, b: seq<Vote>, since: Time)
    ensures LikesAfter(a + b, since) == LikesAfter(a, since) + LikesAfter(b, since)
    ensures Unreadable(a + b) == Unreadable(a) + Unreadable(b)
  {
    if b == [] {
      assert a + b == a;
    } else {
      assert Front(a + b) == a + Front(b) && Last(a + b) == Last(b);
      LikesConcat(a, Front(b), since);
    }
  }

  lemma JudgedLike(v: Vote)
    requires Honest(v) && Judge(v.row).RowOk?
    ensures var t := Judge(v.row).track;
            t.voteId == RowId(v.row) != 0 && t.likedAt == v.at && t.trackId != 0
  {
  }

  lemma {:induction false} PageOfVotes(votes: seq<Vote>)
    requires forall v :: v in votes ==> Honest(v)
    ensures var p := PageOf(RowsOf(votes));
            && p.tracks == LikesAfter(votes, UNSET)
            && Elements(p.voteIds) == IdsOf(votes)
            && p.dropped == Unreadable(votes)
            && forall t :: t in p.tracks ==> t.voteId in IdsOf(votes)
  {
    if votes != [] {
      var front, v := Front(votes), Last(votes);
      PageOfVotes(front);
      assert Front(RowsOf(votes)) == RowsOf(front);
      assert Last(RowsOf(votes)) == v.row;
      assert votes == front + [v];
      assert IdsOf(votes) == IdsOf(front) + IdsOf([v]);
      if Judge(v.row).RowOk? {
        JudgedLike(v);
        assert v in [v];
      }
    }
  }

  lemma {:induction false} AllFresh(tracks: seq<Track>, news: set<int>)
    requires forall t :: t in tracks ==> t.voteId in news
    ensures Fresh(tracks, news) == tracks
  {
    if tracks != [] {
      var front, last := Front(tracks), Last(tracks);
      assert tracks == front + [last];
      assert forall t :: t in front ==> t in tracks;
      AllFresh(front, news);
      assert last in tracks;
    }
  }

  lemma {:induction false} KeepNewerLikes(votes: seq<Vote>, since: Time)
    requires forall v :: v in votes ==> Honest(v)
    ensures KeepNewer(LikesAfter(votes, UNSET), since) == LikesAfter(votes, since)
  {
    if votes != [] {
      var v, all := Last(votes), LikesAfter(votes, UNSET);
      KeepNewerLikes(Front(votes), since);
      if Judge(v.row).RowOk? {
        assert v in votes;
        JudgedLike(v);
        KeepNewerSnoc(LikesAfter(Front(votes), UNSET), Judge(v.row).track, since);
      } else {
        assert LikesAfter(votes, since) == LikesAfter(Front(votes), since);
        assert all == LikesAfter(Front(votes), UNSET);
      }
    }
  }

  lemma KeepNewerSnoc(tracks: seq<Track>, t: Track, since: Time)
    ensures KeepNewer(tracks + [t], since) == KeepNewer(tracks, since) + if Newer(t, since) then [t] else []
  {
    assert Front(tracks + [t]) == tracks;
  }

  /** What one page contributes, when its ids have not been met before. */
  lemma PageStep(page: seq<Vote>, seen: set<int>, since: Time)
    requires forall v :: v in page ==> Honest(v)
    requires IdsOf(page) !! seen
    ensures Contribute(PageOf(RowsOf(page)), seen, since) == Summary(page, since)
  {
    PageOfVotes(page);
    AllFresh(LikesAfter(page, UNSET), IdsOf(page));
    KeepNewerLikes(page, since);
    assert IdsOf(page) - seen == IdsOf(page);
  }

  // ---------- the whole walk ----------

  /** One turn of the walk on a page of votes not met before. */
  lemma WalkStep(server: nat -> PageReply, since: Time, page: nat, pv: seq<Vote>, w: Walked, w': Walked)
    requires page <= MAX_PAGES && server(page) == Page(RowsOf(pv))
    requires forall v :: v in pv ==> Honest(v)
    requires IdsOf(pv) !! w.seen && w' == w.Take(Summary(pv, since))
    ensures WalkFrom(server, since, page, w) ==
            if pv == [] then w.Finish(true)
            else if Summary(pv, since).Stops(since) then w'.Finish(true)
            else WalkFrom(server, since, page + 1, w')
  {
    if pv == [] {
      assert RowsOf(pv) == [];
      WalkEmptyPage(server, since, page, w);
    } else {
      PageStep(pv, w.seen, since);
      WalkTurn(server, since, page, RowsOf(pv), w, Summary(pv, since));
    }
  }

  /** The walk from a page on, having read every vote before it. */
  function Resume(
      votes: seq<Vote>, sizes: nat -> nat, faults: nat -> Option<Fault>, since: Time, page: nat): WalkResult
  {
    WalkFrom(ServerFor(votes, sizes, faults), since, page, ReadSoFar(votes[..Offset(|votes|, sizes, page)], since))
  }

  lemma ResumeStep(votes: seq<Vote>, sizes: nat -> nat, faults: nat -> Option<Fault>, since: Time, page: nat)
    requires Ordered(votes) && 1 <= page <= MAX_PAGES && faults(page).None?
    ensures var pv := PageVotes(votes, sizes, page);
            Resume(votes, sizes, faults, since, page) ==
            if pv == [] then Outcome(votes, since, Stop(Offset(|votes|, sizes, page), true))
            else if Stalled(pv) || AllBelow(pv, since)
            then Outcome(votes, since, Stop(Offset(|votes|, sizes, page + 1), true))
            else Resume(votes, sizes, faults, since, page + 1)
  {
    var off, e := Offset(|votes|, sizes, page), Offset(|votes|, sizes, page + 1);
    OffsetsGrow(|votes|, sizes, page);
    PrefixGrows(votes, off, e, since);
    var server, pv := ServerFor(votes, sizes, faults), votes[off..e];
    assert server(page) == Page(RowsOf(pv));
    WalkStep(server, since, page, pv, ReadSoFar(votes[..off], since), ReadSoFar(votes[..e], since));
  }

  predicate WalkedTo(r: WalkResult, votes: seq<Vote>, since: Time, stop: Stop) {
    Blank(r) || (stop.at <= |votes| && r == Outcome(votes, since, stop))
  }

  predicate Blank(r: WalkResult) {
    r.end.Failed? && r.tracks == []
  }

  lemma {:induction false} ResumedReaches(
      votes: seq<Vote>, sizes: nat -> nat, since: Time, page: nat, stops: nat -> bool, resume: nat -> WalkResult)
    requires page >= 1
    requires forall k: nat :: k >= 1 && Halts(|votes|, sizes, stops, k) ==>
               WalkedTo(resume(k), votes, since, HaltAt(|votes|, sizes, k))
    requires forall k: nat :: k >= 1 && !Halts(|votes|, sizes, stops, k) ==>
               Blank(resume(k)) || resume(k) == resume(k + 1)
    ensures WalkedTo(resume(page), votes, since, ReadOn(|votes|, sizes, stops, page))
    decreases MAX_PAGES + 1 - page
  {
    if !Halts(|votes|, sizes, stops, page) {
      ResumedReaches(votes, sizes, since, page + 1, stops, resume);
    }
  }

  lemma HaltsNormally(votes: seq<Vote>, sizes: nat -> nat, faults: nat -> Option<Fault>, since: Time, page: nat)
    requires Ordered(votes) && page >= 1 && Halts(|votes|, sizes, StopRule(votes, sizes, since), page)
    ensures WalkedTo(Resume(votes, sizes, faults, since, page), votes, since, HaltAt(|votes|, sizes, page))
  {
    if page <= MAX_PAGES && faults(page).None? {
      ResumeStep(votes, sizes, faults, since, page);
    }
  }

  lemma GoesOnNormally(votes: seq<Vote>, sizes: nat -> nat, faults: nat -> Option<Fault>, since: Time, page: nat)
    requires Ordered(votes) && page >= 1 && !Halts(|votes|, sizes, StopRule(votes, sizes, since), page)
    ensures Blank(Resume(votes, sizes, faults, since, page))
            || Resume(votes, sizes, faults, since, page) == Resume(votes, sizes, faults, since, page + 1)
  {
    if faults(page).None? {
      ResumeStep(votes, sizes, faults, since, page);
    }
  }

  lemma ResumedNormally(votes: seq<Vote>, sizes: nat -> nat, faults: nat -> Option<Fault>, since: Time, page: nat,
                        stops: nat -> bool, resume: nat -> WalkResult)
    requires Ordered(votes) && page >= 1 && stops == StopRule(votes, sizes, since)
    requires forall k: nat :: resume(k) == Resume(votes, sizes, faults, since, k)
    ensures WalkedTo(resume(page), votes, since, ReadOn(|votes|, sizes, stops, page))
  {
    forall k: nat | k >= 1 && Halts(|votes|, sizes, stops, k)
      ensures WalkedTo(resume(k), votes, since, HaltAt(|votes|, sizes, k))
    {
      HaltsNormally(votes, sizes, faults, since, k);
    }
    forall k: nat | k >= 1 && !Halts(|votes|, sizes, stops, k)
      ensures Blank(resume(k)) || resume(k) == resume(k + 1)
    {
      GoesOnNormally(votes, sizes, faults, since, k);
    }
    ResumedReaches(votes, sizes, since, page, stops, resume);
  }

  /** The walk, in one formula: the filtered votes of everything up to where
      it stops, reversed. */
  lemma WalkNormalForm(
      votes: seq<Vote>, sizes: nat -> nat, faults: nat -> Option<Fault>, since: Time, page: nat)
    requires Ordered(votes) && page >= 1
    ensures WalkedTo(Resume(votes, sizes, faults, since, page), votes, since, ReadTo(votes, sizes, since, page))
  {
    var resume := (k: nat) => Resume(votes, sizes, faults, since, k);
    ResumedNormally(votes, sizes, faults, since, page, StopRule(votes, sizes, since), resume);
    assert resume(page) == Resume(votes, sizes, faults, since, page);
  }

  lemma PrefixGrows(votes: seq<Vote>, off: nat, e: nat, since: Time)
    requires Ordered(votes) && off <= e <= |votes|
    ensures IdsOf(votes[off..e]) !! IdsOf(votes[..off])
    ensures ReadSoFar(votes[..e], since) == ReadSoFar(votes[..off], since).Take(Summary(votes[off..e], since))
  {
    IdsBeforeAndOn(votes, off, e);
    assert votes[..e] == votes[..off] + votes[off..e];
    LikesConcat(votes[..off], votes[off..e], since);
  }

  /** The same for a walk from the first page. */
  lemma WholeWalk(votes: seq<Vote>, sizes: nat -> nat, faults: nat -> Option<Fault>, since: Time)
    requires Ordered(votes)
    ensures WalkedTo(Walk(ServerFor(votes, sizes, faults), since), votes, since, ReadTo(votes, sizes, since, 1))
  {
    assert IdsOf(votes[..0]) == {};
    WalkNormalForm(votes, sizes, faults, since, 1);
  }

  lemma IdsBeforeAndOn(votes: seq<Vote>, off: nat, e: nat)
    requires IdsDiffer(votes) && off <= e <= |votes|
    ensures IdsOf(votes[off..e]) !! IdsOf(votes[..off])
  {
    forall id | id in IdsOf(votes[off..e])
      ensures id !in IdsOf(votes[..off])
    {
      var j :| off <= j < e && RowId(votes[j].row) == id;
      assert forall i :: 0 <= i < off ==> RowId(votes[i].row) != id || id == 0;
    }
  }

  lemma {:induction false} NoLikesBelow(votes: seq<Vote>, since: Time)
    requires forall v :: v in votes ==> !After(v, since)
    ensures LikesAfter(votes, since) == []
  {
    if votes != [] {
      NoLikesBelow(Front(votes), since);
    }
  }

  lemma {:induction false} LikeAt(votes: seq<Vote>, since: Time, t: Track) returns (i: nat)
    requires t in LikesAfter(votes, since)
    ensures i < |votes| && Judge(votes[i].row) == RowOk(t) && After(votes[i], since)
  {
    if Judge(Last(votes).row) == RowOk(t) && After(Last(votes), since) {
      i := |votes| - 1;
    } else {
      i := LikeAt(Front(votes), since, t);
    }
  }

  lemma {:induction false} LikePresent(votes: seq<Vote>, since: Time, v: Vote)
    requires v in votes && Judge(v.row).RowOk? && After(v, since)
    ensures Judge(v.row).track in LikesAfter(votes, since)
  {
    if v != Last(votes) {
      assert votes == Front(votes) + [Last(votes)];
      LikePresent(Front(votes), since, v);
    }
  }

  lemma {:induction false} NoneUnreadable(votes: seq<Vote>, v: Vote)
    requires v in votes && Unreadable(votes) == 0
    ensures !Judge(v.row).RowDropped?
  {
    if v != Last(votes) {
      assert votes == Front(votes) + [Last(votes)];
      NoneUnreadable(Front(votes), v);
    }
  }

  lemma {:induction false} SomeUnreadable(votes: seq<Vote>, v: Vote)
    requires v in votes && Judge(v.row).RowDropped?
    ensures Unreadable(votes) > 0
  {
    if v != Last(votes) {
      assert votes == Front(votes) + [Last(votes)];
      SomeUnreadable(Front(votes), v);
    }
  }

  /** After a page holding a like at or below the watermark, and none above
      it, come only votes at or below it. */
  lemma BelowStaysBelow(votes: seq<Vote>, off: nat, e: nat, since: Time)
    requires NewestFirst(votes) && off <= e <= |votes| && AllBelow(votes[off..e], since)
    ensures forall v :: v in votes[e..] ==> !After(v, since)
  {
    var pv := votes[off..e];
    var i := LikeAt(pv, UNSET, LikesAfter(pv, UNSET)[0]);
    if After(pv[i], since) {
      LikePresent(pv, since, pv[i]);
    }
    assert pv[i] == votes[off + i];
    forall v | v in votes[e..]
      ensures !After(v, since)
    {
      var j :| e <= j < |votes| && votes[j] == v;
    }
  }

  lemma StalledEndsUnidentified(pv: seq<Vote>)
    requires pv != [] && Stalled(pv) && Truthful(Last(pv))
    ensures RowId(Last(pv).row) == 0 && Judge(Last(pv).row).RowDropped?
  {
    assert Last(pv) in pv;
    assert RowId(Last(pv).row) !in IdsOf(pv);
  }

  lemma PageStopIsSound(votes: seq<Vote>, off: nat, e: nat, since: Time)
    requires WellFormed(votes) && off < e <= |votes|
    requires Stalled(votes[off..e]) || AllBelow(votes[off..e], since)
    ensures SoundStop(votes, since, e)
  {
    if AllBelow(votes[off..e], since) {
      BelowStaysBelow(votes, off, e, since);
    } else {
      assert votes[e - 1] == Last(votes[off..e]) && votes[e - 1] == Last(votes[..e]);
      StalledEndsUnidentified(votes[off..e]);
    }
  }

  lemma HaltIsSound(votes: seq<Vote>, sizes: nat -> nat, since: Time, page: nat)
    requires WellFormed(votes) && 1 <= page <= MAX_PAGES && Halts(|votes|, sizes, StopRule(votes, sizes, since), page)
    ensures SoundStop(votes, since, Offset(|votes|, sizes, page + 1))
  {
    OffsetsGrow(|votes|, sizes, page);
    var off, e := Offset(|votes|, sizes, page), Offset(|votes|, sizes, page + 1);
    if off == e {
      assert votes[e..] == [];
    } else {
      assert PageVotes(votes, sizes, page) == votes[off..e];
      PageStopIsSound(votes, off, e, since);
    }
  }

  /** The early stop is sound: past the page it stops on, nothing is newer
      than the watermark. Only a stalled page can end a walk early. */
  lemma StopIsSound(votes: seq<Vote>, sizes: nat -> nat, since: Time, page: nat)
    requires WellFormed(votes) && page >= 1
    ensures var stop := ReadTo(votes, sizes, since, page);
            stop.complete ==> SoundStop(votes, since, stop.at)
  {
    var stops := StopRule(votes, sizes, since);
    var good := (k: nat, stop: Stop) => stop.complete ==> stop.at <= |votes| && SoundStop(votes, since, stop.at);
    forall k: nat | k >= 1 && Halts(|votes|, sizes, stops, k)
      ensures good(k, HaltAt(|votes|, sizes, k))
    {
      if k <= MAX_PAGES {
        HaltIsSound(votes, sizes, since, k);
      }
    }
    ReadOnReaches(|votes|, sizes, stops, page, good);
  }

  // ---------- the theorems ----------

  lemma AllNewerRead(votes: seq<Vote>, n: nat, since: Time)
    requires n <= |votes| && SoundStop(votes, since, n) && Unreadable(votes[..n]) == 0
    ensures LikesAfter(votes[..n], since) == LikesAfter(votes, since)
    ensures forall v :: v in votes && After(v, since) ==> !Judge(v.row).RowDropped?
  {
    assert votes == votes[..n] + votes[n..];
    NoLikesBelow(votes[n..], since);
    LikesConcat(votes[..n], votes[n..], since);
    forall v | v in votes && After(v, since)
      ensures !Judge(v.row).RowDropped?
    {
      NoneUnreadable(votes[..n], v);
    }
  }

  /** A walk that reports no error returned exactly the likes newer than the
      watermark, oldest first, and no newer vote was unreadable: nothing was
      missed, for any cut into non-empty pages. */
  lemma CleanWalkMissesNothing(votes: seq<Vote>, sizes: nat -> nat, faults: nat -> Option<Fault>, since: Time)
    requires WellFormed(votes)
    requires Walk(ServerFor(votes, sizes, faults), since).end.Complete?
    ensures Walk(ServerFor(votes, sizes, faults), since).tracks == Reversed(LikesAfter(votes, since))
    ensures forall v :: v in votes && After(v, since) ==> !Judge(v.row).RowDropped?
  {
    WholeWalk(votes, sizes, faults, since);
    StopIsSound(votes, sizes, since, 1);
    AllNewerRead(votes, ReadTo(votes, sizes, since, 1).at, since);
  }

  lemma InReversed(s: seq<Track>, t: Track)
    requires t in s
    ensures t in Reversed(s)
  {
    var i :| 0 <= i < |s| && s[i] == t;
    assert Reversed(s)[|s| - 1 - i] == t;
  }

  /** In particular every newer readable like is among what it returned. */
  lemma CleanWalkReturns(
      votes: seq<Vote>, sizes: nat -> nat, faults: nat -> Option<Fault>, since: Time, v: Vote)
    requires WellFormed(votes) && v in votes && After(v, since) && !Judge(v.row).RowFiltered?
    requires Walk(ServerFor(votes, sizes, faults), since).end.Complete?
    ensures Judge(v.row).RowOk? && Judge(v.row).track in Walk(ServerFor(votes, sizes, faults), since).tracks
  {
    CleanWalkMissesNothing(votes, sizes, faults, since);
    LikePresent(votes, since, v);
    InReversed(LikesAfter(votes, since), Judge(v.row).track);
  }

  /** No newer like lies past a page. */
  predicate NothingPastPage(votes: seq<Vote>, sizes: nat -> nat, since: Time, page: nat) {
    LikesAfter(votes[Offset(|votes|, sizes, page + 1)..], since) == []
  }

  /** The k-th page has records, none with a recoverable id, and a newer like
      lies on a page after it: a condition on the votes and on how the server
      cuts them. */
  predicate StallHides(votes: seq<Vote>, sizes: nat -> nat, since: Time, k: nat)
    requires k >= 1
  {
    PageVotes(votes, sizes, k) != [] && Stalled(PageVotes(votes, sizes, k)) && !NothingPastPage(votes, sizes, since, k)
  }

  predicate NoStallHides(votes: seq<Vote>, sizes: nat -> nat, since: Time, page: nat)
    requires page >= 1
  {
    forall k :: page <= k <= MAX_PAGES ==> !StallHides(votes, sizes, since, k)
  }

  lemma {:induction false} OffsetsRise(len: nat, sizes: nat -> nat, j: nat, k: nat)
    requires 1 <= j <= k
    ensures Offset(len, sizes, j) <= Offset(len, sizes, k)
    decreases k
  {
    if j < k {
      OffsetsRise(len, sizes, j, k - 1);
      OffsetsGrow(len, sizes, k - 1);
    }
  }

  /** With nothing newer past a page, no later page hides anything. */
  lemma NothingLeftToHide(votes: seq<Vote>, sizes: nat -> nat, since: Time, page: nat)
    requires page >= 1 && LikesAfter(votes[Offset(|votes|, sizes, page)..], since) == []
    ensures NoStallHides(votes, sizes, since, page)
  {
    var off := Offset(|votes|, sizes, page);
    forall k | page <= k <= MAX_PAGES
      ensures !StallHides(votes, sizes, since, k)
    {
      OffsetsRise(|votes|, sizes, page, k + 1);
      var e := Offset(|votes|, sizes, k + 1);
      assert votes[off..] == votes[off..e] + votes[e..];
      LikesConcat(votes[off..e], votes[e..], since);
    }
  }

  lemma NothingPast(votes: seq<Vote>, since: Time, off: nat, e: nat)
    requires Ordered(votes) && off <= e <= |votes| && AllBelow(votes[off..e], since)
    ensures LikesAfter(votes[e..], since) == []
  {
    BelowStaysBelow(votes, off, e, since);
    NoLikesBelow(votes[e..], since);
  }

  lemma StallHidesHere(votes: seq<Vote>, sizes: nat -> nat, since: Time, page: nat)
    requires 1 <= page <= MAX_PAGES
    ensures NoStallHides(votes, sizes, since, page) <==>
            !StallHides(votes, sizes, since, page) && NoStallHides(votes, sizes, since, page + 1)
  {
  }

  lemma NothingPastHidesNothing(votes: seq<Vote>, sizes: nat -> nat, since: Time, page: nat)
    requires 1 <= page <= MAX_PAGES && NothingPastPage(votes, sizes, since, page)
    ensures NoStallHides(votes, sizes, since, page)
  {
    NothingLeftToHide(votes, sizes, since, page + 1);
    StallHidesHere(votes, sizes, since, page);
  }

  /** A page the walk stops at by itself. */
  lemma HiddenByTheStop(votes: seq<Vote>, sizes: nat -> nat, since: Time, page: nat)
    requires Ordered(votes) && 1 <= page <= MAX_PAGES && PageVotes(votes, sizes, page) != []
    requires Stalled(PageVotes(votes, sizes, page)) || AllBelow(PageVotes(votes, sizes, page), since)
    ensures NothingPastPage(votes, sizes, since, page) <==> NoStallHides(votes, sizes, since, page)
  {
    if AllBelow(PageVotes(votes, sizes, page), since) {
      OffsetsGrow(|votes|, sizes, page);
      NothingPast(votes, since, Offset(|votes|, sizes, page), Offset(|votes|, sizes, page + 1));
    }
    if NothingPastPage(votes, sizes, since, page) {
      NothingPastHidesNothing(votes, sizes, since, page);
    } else {
      assert StallHides(votes, sizes, since, page);
    }
  }

  lemma HaltHidesExactlyWhen(votes: seq<Vote>, sizes: nat -> nat, since: Time, page: nat)
    requires Ordered(votes) && 1 <= page <= MAX_PAGES && Halts(|votes|, sizes, StopRule(votes, sizes, since), page)
    ensures NothingPastPage(votes, sizes, since, page) <==> NoStallHides(votes, sizes, since, page)
  {
    OffsetsGrow(|votes|, sizes, page);
    if PageVotes(votes, sizes, page) == [] {
      NothingLeftToHide(votes, sizes, since, page);
    } else {
      HiddenByTheStop(votes, sizes, since, page);
    }
  }

  lemma StopHidesExactlyWhen(votes: seq<Vote>, sizes: nat -> nat, since: Time, page: nat)
    requires Ordered(votes) && page >= 1 && ReadTo(votes, sizes, since, page).complete
    ensures LikesAfter(votes[ReadTo(votes, sizes, since, page).at..], since) == []
            <==> NoStallHides(votes, sizes, since, page)
  {
    var stops := StopRule(votes, sizes, since);
    var good := (k: nat, stop: Stop) =>
      k >= 1 && stop.complete ==>
        stop.at <= |votes| && (LikesAfter(votes[stop.at..], since) == [] <==> NoStallHides(votes, sizes, since, k));
    forall k: nat | k >= 1 && Halts(|votes|, sizes, stops, k)
      ensures good(k, HaltAt(|votes|, sizes, k))
    {
      if k <= MAX_PAGES {
        HaltHidesExactlyWhen(votes, sizes, since, k);
      }
    }
    forall k: nat, stop | k >= 1 && !Halts(|votes|, sizes, stops, k) && good(k + 1, stop)
      ensures good(k, stop)
    {
      StallHidesHere(votes, sizes, since, k);
    }
    ReadOnReaches(|votes|, sizes, stops, page, good);
  }

  lemma ExactWhenRestIsEmpty(votes: seq<Vote>, n: nat, since: Time)
    requires n <= |votes|
    ensures Reversed(LikesAfter(votes[..n], since)) == Reversed(LikesAfter(votes, since))
            <==> LikesAfter(votes[n..], since) == []
  {
    assert votes == votes[..n] + votes[n..];
    LikesConcat(votes[..n], votes[n..], since);
    var read, rest := LikesAfter(votes[..n], since), LikesAfter(votes[n..], since);
    if Reversed(read) == Reversed(read + rest) {
      assert |Reversed(read)| == |read| + |rest|;
    } else {
      assert rest == [] ==> read + rest == read;
    }
  }

  /** A walk that neither failed nor was truncated returned exactly the likes
      newer than the watermark, oldest first, if and only if no newer like lies
      beyond a page none of whose records has a recoverable id. */
  lemma WalkIsExactExactlyWhen(
      votes: seq<Vote>, sizes: nat -> nat, faults: nat -> Option<Fault>, since: Time)
    requires Ordered(votes)
    requires var end := Walk(ServerFor(votes, sizes, faults), since).end; end.Complete? || end.Dropped?
    ensures Walk(ServerFor(votes, sizes, faults), since).tracks == Reversed(LikesAfter(votes, since))
            <==> NoStallHides(votes, sizes, since, 1)
  {
    var n := ReadTo(votes, sizes, since, 1).at;
    WholeWalk(votes, sizes, faults, since);
    StopHidesExactlyWhen(votes, sizes, since, 1);
    ExactWhenRestIsEmpty(votes, n, since);
  }

  /** When it did not, it reports a drop and stopped on a record without an
      id. */
  lemma InexactWalkSaysSo(
      votes: seq<Vote>, sizes: nat -> nat, faults: nat -> Option<Fault>, since: Time)
    requires WellFormed(votes)
    requires var end := Walk(ServerFor(votes, sizes, faults), since).end; end.Complete? || end.Dropped?
    requires Walk(ServerFor(votes, sizes, faults), since).tracks != Reversed(LikesAfter(votes, since))
    ensures var r, n := Walk(ServerFor(votes, sizes, faults), since), ReadTo(votes, sizes, since, 1).at;
            r.end.Dropped? && n > 0 && RowId(votes[n - 1].row) == 0
  {
    var n := ReadTo(votes, sizes, since, 1).at;
    WellFormedIsOrdered(votes);
    WholeWalk(votes, sizes, faults, since);
    ExactWhenRestIsEmpty(votes, n, since);
    StopIsSound(votes, sizes, since, 1);
    if forall v :: v in votes[n..] ==> !After(v, since) {
      NoLikesBelow(votes[n..], since);
    }
  }

  /** Whatever a walk returns, it returns in vote order and made up of real
      likes newer than the watermark. */
  lemma WalkReturnsLikes(
      votes: seq<Vote>, sizes: nat -> nat, faults: nat -> Option<Fault>, since: Time, t: Track)
    requires WellFormed(votes)
    requires t in Walk(ServerFor(votes, sizes, faults), since).tracks
    ensures exists v :: v in votes && Judge(v.row) == RowOk(t) && t.likedAt == v.at && After(v, since)
  {
    var n := ReadTo(votes, sizes, since, 1).at;
    WholeWalk(votes, sizes, faults, since);
    var i := LikeAt(votes[..n], since, t);
    JudgedLike(votes[i]);
  }

  // ---------- a server that sends everything at once ----------

  /** All votes on one page. */
  function Whole(votes: seq<Vote>): nat -> nat
    requires votes != []
  {
    (page: nat) => |votes| - 1
  }

  function NoFault(): nat -> Option<Fault> {
    (page: nat) => None
  }

  lemma OnePageWalk(votes: seq<Vote>)
    requires Ordered(votes) && votes != [] && IdsOf(votes) != {}
    ensures Walk(ServerFor(votes, Whole(votes), NoFault()), UNSET) == Outcome(votes, UNSET, Stop(|votes|, true))
  {
    var sizes, n := Whole(votes), |votes|;
    assert Offset(n, sizes, 1) == 0 && Offset(n, sizes, 2) == n && Offset(n, sizes, 3) == n;
    assert PageVotes(votes, sizes, 1) == votes && PageVotes(votes, sizes, 2) == [];
    assert IdsOf(votes[..0]) == {};
    ResumeStep(votes, sizes, NoFault(), UNSET, 1);
    ResumeStep(votes, sizes, NoFault(), UNSET, 2);
  }

  /** Dropping can cost more than the dropped record: a page of records
      without ids hides every older page, although the walk is not
      truncated. */
  lemma StalledPageHidesOlderLikes()
    ensures exists votes: seq<Vote>, sizes: nat -> nat, faults: nat -> Option<Fault> ::
              && WellFormed(votes)
              && Walk(ServerFor(votes, sizes, faults), UNSET).end.Dropped?
              && Walk(ServerFor(votes, sizes, faults), UNSET).tracks != Reversed(LikesAfter(votes, UNSET))
  {
    var song := WireTrack(7, "s", "", "", 300, false, "");
    var lost, like := Vote(6, Garbled(0)), Vote(5, Decoded(Wire(1, 7, Some(5), true, false, Some(song))));
    var votes := [lost, like];
    var sizes: nat -> nat, faults: nat -> Option<Fault> := _ => 0, _ => None;
    var server := ServerFor(votes, sizes, faults);
    assert PageVotes(votes, sizes, 1) == [lost] by {
      assert Offset(|votes|, sizes, 2) == 1;
    }
    assert server(1) == Page([Garbled(0)]) by {
      assert RowsOf([lost]) == [Garbled(0)];
    }
    assert PageOf([Garbled(0)]) == PageResult([], [], 1, 1) by {
      assert Front([Garbled(0)]) == [];
    }
    assert Walk(server, UNSET) == WalkResult([], Dropped);
    assert like == votes[1];
    LikePresent(votes, UNSET, like);
  }
}
