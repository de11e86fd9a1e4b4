/** Usable records whose id is 0: the walk passes over them without an error.
    How far that goes, for a server that sends such records. */
module IdlessLikes {
  import opened Common
  import opened Difm
  import opened DifmWalk

  /** Newest first, recoverable ids differ, and a usable record carries the time
      of its vote; it need not carry an id. */
  predicate Dated(votes: seq<Vote>) {
    && NewestFirst(votes) && IdsDiffer(votes)
    && forall v :: v in votes && Judge(v.row).RowOk? ==> Judge(v.row).track.likedAt == v.at
  }

  predicate Idless(v: Vote) {
    Judge(v.row).RowOk? && RowId(v.row) == 0
  }

  /** Some newer like has no id. */
  predicate NewerIdless(votes: seq<Vote>, since: Time) {
    exists v :: v in votes && Idless(v) && After(v, since)
  }

  // ---------- the same walk over a list without them ----------

  /** The record with its vote turned, so that it is no like. */
  function Mask(v: Vote): (m: Vote)
    ensures m.at == v.at && RowId(m.row) == RowId(v.row) && (!Idless(v) ==> m == v) && !Idless(m)
    ensures Judge(m.row) == if Idless(v) then RowFiltered else Judge(v.row)
  {
    if Idless(v) then v.(row := Decoded(v.row.wire.(up := false))) else v
  }

  function Masked(votes: seq<Vote>): (m: seq<Vote>)
    ensures |m| == |votes| && forall i :: 0 <= i < |votes| ==> m[i] == Mask(votes[i])
  {
    seq(|votes|, i requires 0 <= i < |votes| => Mask(votes[i]))
  }

  lemma MaskedIsOrdered(votes: seq<Vote>)
    requires Dated(votes)
    ensures Ordered(Masked(votes))
  {
    var m := Masked(votes);
    forall v | v in m
      ensures Honest(v)
    {
      var i :| 0 <= i < |m| && m[i] == v;
      assert votes[i] in votes;
    }
  }

  lemma MaskedParts(votes: seq<Vote>, i: nat, j: nat)
    requires i <= j <= |votes|
    ensures Masked(votes)[i..j] == Masked(votes[i..j])
  {
  }

  lemma MaskedSnoc(votes: seq<Vote>)
    requires votes != []
    ensures Front(Masked(votes)) == Masked(Front(votes)) && Last(Masked(votes)) == Mask(Last(votes))
  {
  }

  lemma {:induction false} SamePage(votes: seq<Vote>, news: set<int>)
    requires 0 !in news
    ensures var p, m := PageOf(RowsOf(votes)), PageOf(RowsOf(Masked(votes)));
            && m.voteIds == p.voteIds && m.dropped == p.dropped && 0 !in p.voteIds
            && Fresh(m.tracks, news) == Fresh(p.tracks, news)
  {
    if votes != [] {
      var front, v := Front(votes), Last(votes);
      SamePage(front, news);
      MaskedSnoc(votes);
      assert Front(RowsOf(votes)) == RowsOf(front) && Last(RowsOf(votes)) == v.row;
      assert Front(RowsOf(Masked(votes))) == RowsOf(Masked(front)) && Last(RowsOf(Masked(votes))) == Mask(v).row;
      TrackIdIsRowId(v.row);
      if Judge(v.row).RowOk? {
        FreshSnoc(PageOf(RowsOf(front)).tracks, Judge(v.row).track, news);
        FreshSnoc(PageOf(RowsOf(Masked(front))).tracks, Judge(v.row).track, news);
      }
    }
  }

  lemma TrackIdIsRowId(row: Row)
    ensures Judge(row).RowOk? ==> Judge(row).track.voteId == RowId(row)
  {
  }

  lemma FreshSnoc(tracks: seq<Track>, t: Track, news: set<int>)
    ensures Fresh(tracks + [t], news) == Fresh(tracks, news) + if t.voteId in news then [t] else []
  {
    assert Front(tracks + [t]) == tracks;
  }

  lemma SameContribution(votes: seq<Vote>, seen: set<int>, since: Time)
    ensures Contribute(PageOf(RowsOf(Masked(votes))), seen, since) == Contribute(PageOf(RowsOf(votes)), seen, since)
  {
    SamePage(votes, {});
    SamePage(votes, Elements(PageOf(RowsOf(votes)).voteIds) - seen);
  }

  /** Replies no walk can tell apart. */
  ghost predicate SameReply(a: PageReply, b: PageReply, since: Time) {
    match (a, b)
    case (NoPage(f), NoPage(g)) => f == g
    case (Page(rows), Page(rows')) =>
      && |rows| == |rows'|
      && forall seen: set<int> :: Contribute(PageOf(rows), seen, since) == Contribute(PageOf(rows'), seen, since)
    case _ => false
  }

  lemma TurnAlike(a: nat -> PageReply, b: nat -> PageReply, since: Time, page: nat, w: Walked, c: Contribution)
    requires page <= MAX_PAGES && a(page).Page? && b(page).Page? && a(page).rows != [] && b(page).rows != []
    requires c == Contribute(PageOf(a(page).rows), w.seen, since) == Contribute(PageOf(b(page).rows), w.seen, since)
    requires c.Stops(since) || WalkFrom(a, since, page + 1, w.Take(c)) == WalkFrom(b, since, page + 1, w.Take(c))
    ensures WalkFrom(a, since, page, w) == WalkFrom(b, since, page, w)
  {
    WalkTurn(a, since, page, a(page).rows, w, c);
    WalkTurn(b, since, page, b(page).rows, w, c);
  }

  lemma ShortTurnAlike(a: nat -> PageReply, b: nat -> PageReply, since: Time, page: nat, w: Walked)
    requires page > MAX_PAGES || (a(page) == b(page) && (a(page).Page? ==> a(page).rows == []))
    ensures WalkFrom(a, since, page, w) == WalkFrom(b, since, page, w)
  {
  }

  lemma {:induction false} WalkedAlike(a: nat -> PageReply, b: nat -> PageReply, since: Time, page: nat, w: Walked)
    requires forall k: nat :: SameReply(a(k), b(k), since)
    ensures WalkFrom(a, since, page, w) == WalkFrom(b, since, page, w)
    decreases MAX_PAGES + 1 - page
  {
    assert SameReply(a(page), b(page), since);
    if page > MAX_PAGES || a(page).NoPage? || a(page).rows == [] {
      ShortTurnAlike(a, b, since, page, w);
    } else {
      var c := Contribute(PageOf(a(page).rows), w.seen, since);
      if !c.Stops(since) {
        WalkedAlike(a, b, since, page + 1, w.Take(c));
      }
      TurnAlike(a, b, since, page, w, c);
    }
  }

  lemma SamePageVotes(votes: seq<Vote>, sizes: nat -> nat, k: nat)
    requires k >= 1
    ensures PageVotes(Masked(votes), sizes, k) == Masked(PageVotes(votes, sizes, k))
  {
    OffsetsGrow(|votes|, sizes, k);
    MaskedParts(votes, Offset(|votes|, sizes, k), Offset(|votes|, sizes, k + 1));
  }

  lemma SameWalk(votes: seq<Vote>, sizes: nat -> nat, faults: nat -> Option<Fault>, since: Time)
    ensures Walk(ServerFor(Masked(votes), sizes, faults), since) == Walk(ServerFor(votes, sizes, faults), since)
  {
    var a, b := ServerFor(Masked(votes), sizes, faults), ServerFor(votes, sizes, faults);
    forall k: nat
      ensures SameReply(a(k), b(k), since)
    {
      if k >= 1 && faults(k).None? {
        SamePageVotes(votes, sizes, k);
        forall seen: set<int> {
          SameContribution(PageVotes(votes, sizes, k), seen, since);
        }
      }
    }
    WalkedAlike(a, b, since, 1, Walked({}, [], 0));
  }

  // ---------- what the two lists hold ----------

  lemma {:induction false} MaskedLikes(votes: seq<Vote>, since: Time)
    requires !NewerIdless(votes, since)
    ensures LikesAfter(Masked(votes), since) == LikesAfter(votes, since)
  {
    if votes != [] {
      MaskedSnoc(votes);
      assert votes == Front(votes) + [Last(votes)];
      assert Last(votes) in votes;
      MaskedLikes(Front(votes), since);
    }
  }

  lemma {:induction false} MaskedHasIds(votes: seq<Vote>, since: Time, t: Track)
    requires t in LikesAfter(Masked(votes), since)
    ensures t.voteId != 0
  {
    MaskedSnoc(votes);
    TrackIdIsRowId(Last(Masked(votes)).row);
    if t in LikesAfter(Masked(Front(votes)), since) {
      MaskedHasIds(Front(votes), since, t);
    }
  }

  lemma MaskedIds(votes: seq<Vote>)
    ensures IdsOf(Masked(votes)) == IdsOf(votes)
  {
    var m := Masked(votes);
    forall id | id in IdsOf(votes)
      ensures id in IdsOf(m)
    {
      var i :| 0 <= i < |votes| && RowId(votes[i].row) == id;
      assert m[i] in m;
    }
    forall id | id in IdsOf(m)
      ensures id in IdsOf(votes)
    {
      var i :| 0 <= i < |m| && RowId(m[i].row) == id;
      assert votes[i] in votes;
    }
  }

  lemma SameStalls(votes: seq<Vote>, sizes: nat -> nat, since: Time, k: nat)
    requires k >= 1 && !NewerIdless(votes, since)
    ensures StallHides(Masked(votes), sizes, since, k) <==> StallHides(votes, sizes, since, k)
  {
    SamePageVotes(votes, sizes, k);
    MaskedIds(PageVotes(votes, sizes, k));
    var e := Offset(|votes|, sizes, k + 1);
    MaskedParts(votes, e, |votes|);
    assert Masked(votes)[e..] == Masked(votes)[e..|votes|] && votes[e..] == votes[e..|votes|];
    assert forall v :: v in votes[e..] ==> v in votes;
    MaskedLikes(votes[e..], since);
  }

  // ---------- the results ----------

  /** Whatever ids are missing, a walk that neither failed nor was truncated is
      exact if and only if no newer like lacks an id, and none lies beyond a
      page without a single recoverable id. */
  lemma IdlessWalkIsExactExactlyWhen(
      votes: seq<Vote>, sizes: nat -> nat, faults: nat -> Option<Fault>, since: Time)
    requires Dated(votes)
    requires var end := Walk(ServerFor(votes, sizes, faults), since).end; end.Complete? || end.Dropped?
    ensures Walk(ServerFor(votes, sizes, faults), since).tracks == Reversed(LikesAfter(votes, since))
            <==> !NewerIdless(votes, since) && NoStallHides(votes, sizes, since, 1)
  {
    var m, tracks := Masked(votes), Walk(ServerFor(votes, sizes, faults), since).tracks;
    SameWalk(votes, sizes, faults, since);
    MaskedIsOrdered(votes);
    if NewerIdless(votes, since) {
      var v :| v in votes && Idless(v) && After(v, since);
      if tracks == Reversed(LikesAfter(votes, since)) {
        LikePresent(votes, since, v);
        InReversed(LikesAfter(votes, since), Judge(v.row).track);
        WalkOfMaskedHasIds(votes, sizes, faults, since, Judge(v.row).track);
        TrackIdIsRowId(v.row);
        assert false;
      }
    } else {
      MaskedLikes(votes, since);
      WalkIsExactExactlyWhen(m, sizes, faults, since);
      forall k | 1 <= k <= MAX_PAGES
        ensures StallHides(m, sizes, since, k) <==> StallHides(votes, sizes, since, k)
      {
        SameStalls(votes, sizes, since, k);
      }
    }
  }

  lemma WalkOfMaskedHasIds(votes: seq<Vote>, sizes: nat -> nat, faults: nat -> Option<Fault>, since: Time, t: Track)
    requires Dated(votes) && t in Walk(ServerFor(votes, sizes, faults), since).tracks
    ensures t.voteId != 0
  {
    var m := Masked(votes);
    SameWalk(votes, sizes, faults, since);
    MaskedIsOrdered(votes);
    var n := ReadTo(m, sizes, since, 1).at;
    WholeWalk(m, sizes, faults, since);
    MaskedParts(votes, 0, n);
    assert m[..n] == m[0..n] && votes[..n] == votes[0..n];
    MaskedHasIds(votes[..n], since, t);
  }

  /** An unusable record that decodes has an id. */
  predicate UnusableHaveIds(votes: seq<Vote>) {
    forall v :: v in votes && v.row.Decoded? && !Judge(v.row).RowOk? ==> RowId(v.row) != 0
  }

  /** If only usable records can lack an id, a walk without an error is exact if
      and only if no newer like lacks one. */
  lemma NilErrorIsExactExactlyWhen(
      votes: seq<Vote>, sizes: nat -> nat, faults: nat -> Option<Fault>, since: Time)
    requires Dated(votes) && UnusableHaveIds(votes)
    requires Walk(ServerFor(votes, sizes, faults), since).end.Complete?
    ensures Walk(ServerFor(votes, sizes, faults), since).tracks == Reversed(LikesAfter(votes, since))
            <==> !NewerIdless(votes, since)
  {
    IdlessWalkIsExactExactlyWhen(votes, sizes, faults, since);
    if !NewerIdless(votes, since) {
      NothingHidden(votes, sizes, faults, since);
    }
  }

  lemma {:induction false} MaskedUnreadable(votes: seq<Vote>)
    ensures Unreadable(Masked(votes)) == Unreadable(votes)
  {
    if votes != [] {
      MaskedSnoc(votes);
      MaskedUnreadable(Front(votes));
    }
  }

  /** A page without ids that was read without a drop holds old likes only. */
  lemma StalledPageIsOld(votes: seq<Vote>, off: nat, e: nat, since: Time)
    requires Dated(votes) && UnusableHaveIds(votes) && !NewerIdless(votes, since)
    requires off < e <= |votes| && Stalled(votes[off..e]) && Unreadable(votes[..e]) == 0
    ensures LikesAfter(votes[e..], since) == []
  {
    var last := votes[e - 1];
    assert last in votes && last == votes[off..e][e - 1 - off] && last == votes[..e][e - 1];
    assert last in votes[off..e] && RowId(last.row) !in IdsOf(votes[off..e]);
    NoneUnreadable(votes[..e], last);
    assert Idless(last) && !After(last, since);
    forall v | v in votes[e..]
      ensures !After(v, since)
    {
      var j :| e <= j < |votes| && votes[j] == v;
    }
    NoLikesBelow(votes[e..], since);
  }

  lemma HaltIsExact(votes: seq<Vote>, sizes: nat -> nat, since: Time, page: nat)
    requires Dated(votes) && UnusableHaveIds(votes) && !NewerIdless(votes, since)
    requires 1 <= page <= MAX_PAGES && Halts(|votes|, sizes, StopRule(Masked(votes), sizes, since), page)
    requires Unreadable(votes[..Offset(|votes|, sizes, page + 1)]) == 0
    ensures LikesAfter(Masked(votes)[Offset(|votes|, sizes, page + 1)..], since) == []
  {
    OffsetsGrow(|votes|, sizes, page);
    var m, off, e := Masked(votes), Offset(|votes|, sizes, page), Offset(|votes|, sizes, page + 1);
    MaskedIsOrdered(votes);
    if off == e {
      assert m[e..] == [];
    } else if AllBelow(m[off..e], since) {
      NothingPast(m, since, off, e);
    } else {
      MaskedParts(votes, off, e);
      MaskedIds(votes[off..e]);
      StalledPageIsOld(votes, off, e, since);
      MaskedParts(votes, e, |votes|);
      assert m[e..] == m[e..|votes|] && votes[e..] == votes[e..|votes|];
      assert forall v :: v in votes[e..] ==> v in votes;
      MaskedLikes(votes[e..], since);
    }
  }

  lemma NothingHidden(votes: seq<Vote>, sizes: nat -> nat, faults: nat -> Option<Fault>, since: Time)
    requires Dated(votes) && UnusableHaveIds(votes) && !NewerIdless(votes, since)
    requires Walk(ServerFor(votes, sizes, faults), since).end.Complete?
    ensures Walk(ServerFor(votes, sizes, faults), since).tracks == Reversed(LikesAfter(votes, since))
  {
    var m := Masked(votes);
    var stop := ReadTo(m, sizes, since, 1);
    SameWalk(votes, sizes, faults, since);
    MaskedIsOrdered(votes);
    WholeWalk(m, sizes, faults, since);
    MaskedParts(votes, 0, stop.at);
    assert m[..stop.at] == m[0..stop.at] && votes[..stop.at] == votes[0..stop.at];
    MaskedUnreadable(votes[..stop.at]);
    StopIsExact(votes, sizes, since);
    ExactWhenRestIsEmpty(m, stop.at, since);
    MaskedLikes(votes, since);
  }

  lemma StopIsExact(votes: seq<Vote>, sizes: nat -> nat, since: Time)
    requires Dated(votes) && UnusableHaveIds(votes) && !NewerIdless(votes, since)
    requires var stop := ReadTo(Masked(votes), sizes, since, 1); stop.complete && Unreadable(votes[..stop.at]) == 0
    ensures LikesAfter(Masked(votes)[ReadTo(Masked(votes), sizes, since, 1).at..], since) == []
  {
    var m, stops := Masked(votes), StopRule(Masked(votes), sizes, since);
    var good := (k: nat, stop: Stop) =>
      stop.complete && stop.at <= |votes| && Unreadable(votes[..stop.at]) == 0 ==>
        LikesAfter(m[stop.at..], since) == [];
    forall k: nat | k >= 1 && Halts(|votes|, sizes, stops, k)
      ensures good(k, HaltAt(|votes|, sizes, k))
    {
      if k <= MAX_PAGES && Unreadable(votes[..Offset(|votes|, sizes, k + 1)]) == 0 {
        HaltIsExact(votes, sizes, since, k);
      }
    }
    ReadOnReaches(|votes|, sizes, stops, 1, good);
  }

  // ---------- a list with one ----------

  const SONG := WireTrack(7, "s", "", "", 300, false, "")
  const SEEN := Vote(6, Decoded(Wire(1, 7, Some(6), true, false, Some(SONG))))
  const IDLESS := Vote(5, Decoded(Wire(0, 7, Some(5), true, false, Some(SONG))))

  lemma NothingUnreadable()
    ensures Unreadable([SEEN, IDLESS]) == 0
  {
    assert Front([SEEN, IDLESS]) == [SEEN] && Front([SEEN]) == [];
    assert Unreadable([SEEN]) == 0;
  }

  /** Two likes on one page, the second without an id: no error, and only the
      first is returned. */
  lemma IdlessLikeIsPassedOver()
    ensures exists votes, sizes: nat -> nat, faults: nat -> Option<Fault> ::
              && Dated(votes)
              && Walk(ServerFor(votes, sizes, faults), UNSET).end.Complete?
              && Walk(ServerFor(votes, sizes, faults), UNSET).tracks != Reversed(LikesAfter(votes, UNSET))
  {
    var votes := [SEEN, IDLESS];
    var m := Masked(votes);
    MaskedIsOrdered(votes);
    assert m[0] == SEEN && RowId(m[0].row) in IdsOf(m);
    OnePageWalk(m);
    SameWalk(votes, Whole(m), NoFault(), UNSET);
    NothingUnreadable();
    MaskedUnreadable(votes);
    assert m[..2] == m;
    assert Walk(ServerFor(votes, Whole(m), NoFault()), UNSET).end == Complete;
    assert votes[1] == IDLESS && NewerIdless(votes, UNSET);
    IdlessWalkIsExactExactlyWhen(votes, Whole(m), NoFault(), UNSET);
  }
}
