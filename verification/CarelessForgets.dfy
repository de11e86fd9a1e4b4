/** A run in which forgetting a track uncovers an earlier vote for it, and in
    which a forget that stops half-way strands a like. */
module CarelessForgets {
  import opened Common
  import opened Difm
  import opened DifmWalk
  import opened World
  import opened Pass
  import opened Resync
  import opened NoLoss
  import opened PlaylistSafety
  import opened Runs
  import opened Recorded

  // ---------- passes nobody disturbs ----------

  /** Everything works; only the searches differ. */
  function Smooth(votes: seq<Vote>, search: Track -> SearchReply): PassScript
    requires votes != []
  {
    PassScript(Answered, Landed, Whole(votes), NoFault(), [], Answered,
               (i: nat) => LikeScript([], Answered, search, Landed),
               [], Answered, (b: nat) => Landed, [], false, Landed)
  }

  lemma TwoSteps(w: World, loc: Locals, a: Track, b: Track, scripts: nat -> LikeScript, th: Thresholds)
    ensures var p := LikeStep(w, loc, a, scripts(0), th, false);
            LikeSteps(w, loc, [a, b], scripts, th, false) ==
            if p.halt.Running? then LikeStep(p.w, p.loc, b, scripts(1), th, false) else p
  {
    assert Front([a, b]) == [a] && Front([a]) == [];
    assert LikeSteps(w, loc, [a], scripts, th, false) == LikeStep(w, loc, a, scripts(0), th, false);
  }

  /** A pass that gets through its likes is the adding that follows them. */
  lemma PassIsAdding(w: World, s: PassScript, th: Thresholds, walk: WalkResult, p: Progress)
    requires s.reload.Answered? && s.start.Landed? && s.afterWalk == [] && s.firstRead.Answered?
    requires walk == Walk(ServerFor(w.votes, s.sizes, s.faults), w.watermark) && walk.end.Complete?
    requires p == LikeSteps(w, FirstLocals(true, w.watermark, w.playlist, |walk.tracks|), walk.tracks,
                            s.likes, th, false)
    requires p.halt.Running?
    ensures RunPass(w, s, th, false) == Adding(p.w, p.loc, w.watermark, s)
  {
    assert ApplyAll(w, s.afterWalk) == w;
  }

  // ---------- one song liked twice ----------

  const X := SpotifyId("x")
  const DEFAULTS := Thresholds(0.85, 0.6)

  function LikeOf(voteId: int, at: Time): Vote {
    Vote(at, Decoded(Wire(voteId, 7, Some(at), true, false, Some(WireTrack(7, "s", "", "", 300, false, "")))))
  }

  function TrackOf(voteId: int, at: Time): Track {
    Track(voteId, 7, "", "s", 300, "", at, false)
  }

  const EARLY := LikeOf(1, 10 * SECOND)
  const LATE := LikeOf(2, 20 * SECOND)
  const VOTES := [LATE, EARLY]

  const START := World(VOTES, 20 * SECOND, [], [], multiset{}, map[], map[], UNSET)

  const ROW := LedgerRow(2, X, 20 * SECOND, 1.0)

  /** The search for the first vote's track fails, the second one's succeeds. */
  function HalfFound(like: Track): SearchReply {
    if like.voteId == 1 then SearchFailed else Found([Scored(X, 1.0)])
  }

  const AFTER_ONE := START.(playlist := [X], history := [X], ledger := map[7 := ROW])
  const AFTER_TWO := AFTER_ONE.(watermark := 20 * SECOND)

  const PASS := Sync(Smooth(VOTES, HalfFound), DEFAULTS, false)

  lemma StartIsInitial()
    ensures Initial(START)
  {
    assert START.votes[0] == LATE && START.votes[1] == EARLY;
  }

  lemma BothAreFetched()
    ensures Walk(ServerFor(VOTES, Whole(VOTES), NoFault()), UNSET) ==
            WalkResult([TrackOf(1, 10 * SECOND), TrackOf(2, 20 * SECOND)], Complete)
  {
    StartIsInitial();
    assert VOTES[0] in VOTES && RowId(VOTES[0].row) in IdsOf(VOTES);
    WellFormedIsOrdered(VOTES);
    OnePageWalk(VOTES);
    assert VOTES[..2] == VOTES;
    VotesRead();
  }

  lemma VotesRead()
    ensures LikesAfter(VOTES, UNSET) == [TrackOf(2, 20 * SECOND), TrackOf(1, 10 * SECOND)]
    ensures Unreadable(VOTES) == 0
  {
    assert Front(VOTES) == [LATE] && Front([LATE]) == [];
    assert LikesAfter([LATE], UNSET) == [TrackOf(2, 20 * SECOND)];
    assert Unreadable([LATE]) == 0;
  }

  lemma FailedStep(w: World, loc: Locals, like: Track, ls: LikeScript, th: Thresholds)
    requires ls.outside == [] && ls.synced.Answered? && !like.skip && like.trackId !in w.ledger
    requires ls.search(like).SearchFailed?
    ensures LikeStep(w, loc, like, ls, th, false) == Progress(w, loc.Fail(), Running)
  {
  }

  lemma FoundStep(w: World, loc: Locals, like: Track, ls: LikeScript, th: Thresholds, best: Scored)
    requires ls.outside == [] && ls.synced.Answered? && !like.skip && like.trackId !in w.ledger
    requires ls.search(like) == Found([best]) && best.score >= th.auto && best.id !in loc.present
    ensures LikeStep(w, loc, like, ls, th, false) ==
            Progress(w, loc.(ids := loc.ids + [best.id], rows := loc.rows + [RowFor(like, best)],
                             present := loc.present + {best.id}), Running)
  {
  }

  function Finding(loc: Locals): Locals {
    loc.Fail().(ids := [X], rows := [RowFor(TrackOf(2, 20 * SECOND), Scored(X, 1.0))], present := {X})
  }

  lemma FirstSteps(w: World, loc: Locals, likes: nat -> LikeScript)
    requires forall i :: likes(i) == LikeScript([], Answered, HalfFound, Landed)
    requires 7 !in w.ledger && loc.ids == [] && loc.rows == [] && loc.present == {}
    ensures LikeSteps(w, loc, [TrackOf(1, 10 * SECOND), TrackOf(2, 20 * SECOND)], likes, DEFAULTS, false) ==
            Progress(w, Finding(loc), Running)
  {
    var a, b := TrackOf(1, 10 * SECOND), TrackOf(2, 20 * SECOND);
    TwoSteps(w, loc, a, b, likes, DEFAULTS);
    FailedStep(w, loc, a, likes(0), DEFAULTS);
    FoundStep(w, loc.Fail(), b, likes(1), DEFAULTS, Scored(X, 1.0));
  }

  predicate OneFound(loc: Locals) {
    loc.ids == [X] && |loc.rows| == 1 && loc.rows[0].trackId == 7 && loc.rows[0].row == ROW && !loc.clean
  }

  lemma FoundOne(loc: Locals)
    requires loc.ids == [] && loc.rows == []
    ensures OneFound(Finding(loc))
  {
  }

  lemma FirstHandling() returns (found: Locals)
    ensures OneFound(found) && RunPass(START, PASS.script, DEFAULTS, false) == Adding(START, found, UNSET, PASS.script)
  {
    BothAreFetched();
    var loc := FirstLocals(true, UNSET, [], 2);
    found := Finding(loc);
    FoundOne(loc);
    FirstSteps(START, loc, PASS.script.likes);
    PassIsAdding(START, PASS.script, DEFAULTS, Walk(ServerFor(VOTES, Whole(VOTES), NoFault()), UNSET),
                 Progress(START, found, Running));
  }

  lemma FirstPass()
    ensures RunPass(START, PASS.script, DEFAULTS, false).world == AFTER_ONE
  {
    var found := FirstHandling();
    FirstAdd(found, found.rows[0]);
  }

  lemma FirstAdd(loc: Locals, row: PendingRow)
    requires OneFound(loc) && row == loc.rows[0]
    ensures Adding(START, loc, UNSET, PASS.script).world == AFTER_ONE
  {
    var s := PASS.script;
    assert Front([X]) == [];
    assert Without([X], Elements(START.playlist)) == [X];
    assert [X][..1] == [X] && [X][1..] == [];
    assert PostFrom([X], s.posts, 0) == Posting([X], AllPosted);
    assert Front([row]) == [];
    assert RecordedAll(map[], [row]) == map[7 := ROW];
  }

  lemma SyncedStep(w: World, loc: Locals, like: Track, ls: LikeScript, th: Thresholds)
    requires ls.outside == [] && ls.synced.Answered? && !like.skip && like.trackId in w.ledger
    ensures LikeStep(w, loc, like, ls, th, false) == Progress(w, loc.Advance(like.likedAt), Running)
  {
  }

  lemma SecondPass()
    ensures RunPass(AFTER_ONE, PASS.script, DEFAULTS, false).world == AFTER_TWO
  {
    BothAreFetched();
    var likes := PASS.script.likes;
    var a, b := TrackOf(1, 10 * SECOND), TrackOf(2, 20 * SECOND);
    var loc := FirstLocals(true, UNSET, [X], 2);
    var synced := loc.Advance(10 * SECOND).Advance(20 * SECOND);
    TwoSteps(AFTER_ONE, loc, a, b, likes, DEFAULTS);
    SyncedStep(AFTER_ONE, loc, a, likes(0), DEFAULTS);
    SyncedStep(AFTER_ONE, loc.Advance(10 * SECOND), b, likes(1), DEFAULTS);
    PassIsAdding(AFTER_ONE, PASS.script, DEFAULTS, WalkResult([a, b], Complete), Progress(AFTER_ONE, synced, Running));
    SecondAdd(synced);
  }

  lemma SecondAdd(loc: Locals)
    requires loc.ids == [] && loc.rows == [] && loc.clean && loc.high == 20 * SECOND
    ensures Adding(AFTER_ONE, loc, UNSET, PASS.script).world == AFTER_TWO
  {
  }

  lemma TwoPasses()
    ensures Initial(START) && Exec(START, [PASS, PASS]) == AFTER_TWO
  {
    StartIsInitial();
    FirstPass();
    SecondPass();
    assert Front([PASS, PASS]) == [PASS] && Front([PASS]) == [];
    assert Exec(START, [PASS]) == AFTER_ONE;
  }

  // ---------- what goes wrong ----------

  lemma EarlyVoteUncovered()
    requires Inv(AFTER_TWO) && AllRecorded(AFTER_TWO)
    ensures !AllRecorded(Resynced(AFTER_TWO, Command(false, [7], false)))
  {
    assert Forget(AFTER_TWO.ledger, [7]).earliest == 20 * SECOND by {
      assert Front([7]) == [] && Last([7]) == 7;
    }
    ForgetKeepsRecordsExactlyWhen(AFTER_TWO, Command(false, [7], false));
    assert Rewound(AFTER_TWO.watermark, 20 * SECOND) == 19 * SECOND;
    assert EARLY == AFTER_TWO.votes[1] && LosesItsRow(AFTER_TWO, [7], Judge(EARLY.row).track.trackId);
  }

  lemma AllRecordedAfterTwo()
    ensures AllRecorded(AFTER_TWO)
  {
  }

  /** A first pass cannot search for the older of two votes for one song and
      records the newer; a second finds both synced and moves the watermark;
      forgetting the song moves it back to just before the newer vote only. */
  lemma ForgetCanUncoverAnEarlierVote()
    ensures exists w, es, c :: Initial(w) && AllRecorded(Exec(w, es)) && !AllRecorded(Exec(w, es + [Recover(c)]))
  {
    var es, e := [PASS, PASS], Recover(Command(false, [7], false));
    TwoPasses();
    ReachableStatesAreGood(START, es);
    AllRecordedAfterTwo();
    EarlyVoteUncovered();
    assert Front(es + [e]) == es && Last(es + [e]) == e;
    assert Exec(START, es + [e]) == Resynced(AFTER_TWO, e.c);
    assert AllRecorded(Exec(START, es)) && !AllRecorded(Exec(START, es + [Recover(e.c)]));
  }

  /** A resync that stops between the ledger and the watermark strands what it
      forgot: completion is needed. */
  lemma InterruptedForgetStrandsALike()
    ensures exists w, es, ids ::
              Initial(w) && NoneLost(Exec(w, es))
              && !NoneLost(Exec(w, es).(ledger := Forget(Exec(w, es).ledger, ids).ledger))
  {
    var es := [PASS, PASS];
    TwoPasses();
    ReachableStatesAreGood(START, es);
    ForgetRemoves(AFTER_TWO.ledger, [7]);
    var stopped := AFTER_TWO.(ledger := Forget(AFTER_TWO.ledger, [7]).ledger);
    assert 7 in [7] && 7 in Elements([7]);
    assert LATE == stopped.votes[0] && !Covered(stopped, LATE);
    assert Initial(START) && NoneLost(Exec(START, es))
        && !NoneLost(Exec(START, es).(ledger := Forget(Exec(START, es).ledger, [7]).ledger));
  }
}
