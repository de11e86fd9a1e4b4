/** No like is ever lost, over whole runs: when every vote at or below the
    watermark is recorded, and what a clean pass does about one that is not. */
module Recorded {
  import opened Common
  import opened Difm
  import opened DifmWalk
  import opened World
  import opened Pass
  import opened Resync
  import opened NoLoss
  import opened PlaylistSafety
  import opened Runs

  // ---------- one event ----------

  predicate LosesItsRow(w: World, ids: seq<int>, id: int) {
    id in ids && id in w.ledger && id !in w.queue
  }

  predicate LaterThanMark(w: World, ids: seq<int>, mark: Time) {
    forall v :: v in w.votes && Judge(v.row).RowOk? && LosesItsRow(w, ids, Judge(v.row).track.trackId) ==> v.at > mark
  }

  /** A forget that may be given in w: it rewinds the watermark past no vote
      for a track whose only record it removes. A command that clears the
      watermark always may. */
  predicate MayForget(w: World, c: Command) {
    || c.ClearsMark()
    || var mark := Rewound(w.watermark, Forget(w.ledger, c.forget).earliest);
       mark == UNSET || LaterThanMark(w, c.forget, mark)
  }

  /** What a forget of ids does, as far as coverage is concerned. */
  predicate Forgets(w: World, ids: seq<int>, w': World) {
    && w'.votes == w.votes && w'.queue == w.queue
    && w'.ledger.Keys == w.ledger.Keys - Elements(ids)
    && w'.watermark <= w.watermark && (w.watermark == UNSET ==> w'.watermark == UNSET)
  }

  lemma ForgettingLosesRecordsWhen(w: World, ids: seq<int>, w': World)
    requires Forgets(w, ids, w') && AllRecorded(w) && w'.watermark != UNSET
    ensures AllRecorded(w') <==> LaterThanMark(w, ids, w'.watermark)
  {
    if AllRecorded(w') {
      forall v | v in w.votes && Judge(v.row).RowOk? && LosesItsRow(w, ids, Judge(v.row).track.trackId)
        ensures v.at > w'.watermark
      {
        assert !OnRecord(w', Judge(v.row).track.trackId);
      }
    } else {
      var v :| v in w.votes && !Judge(v.row).RowFiltered? && v.at <= w'.watermark &&
               !(Judge(v.row).RowOk? && OnRecord(w', Judge(v.row).track.trackId));
      assert OnRecord(w, Judge(v.row).track.trackId);
      assert LosesItsRow(w, ids, Judge(v.row).track.trackId);
    }
  }

  /** A resync leaves every vote at or below the watermark recorded exactly
      when each vote for a forgotten and unqueued track is later than the point
      the watermark is moved to, or the watermark is unset. */
  lemma ForgetKeepsRecordsExactlyWhen(w: World, c: Command)
    requires Inv(w) && AllRecorded(w)
    ensures AllRecorded(Resynced(w, c)) <==> MayForget(w, c)
  {
    var w' := Resynced(w, c);
    if !c.ClearsMark() {
      assert c == Command(false, c.forget, false);
      StoredTimesOf(w);
      ForgetClearsBothSuppressors(w, c.forget);
      assert w'.watermark == Rewound(w.watermark, Forget(w.ledger, c.forget).earliest);
      if w'.watermark != UNSET {
        ForgettingLosesRecordsWhen(w, c.forget, w');
      }
    }
  }

  /** Restoring a database leaves old votes recorded exactly when they were
      recorded then: what it has not heard of is above its watermark. */
  lemma RestoreKeepsRecordsExactlyWhen(w: World, backup: World)
    requires Inv(w) && Inv(backup) && Grown(backup, w)
    ensures AllRecorded(Restored(w, backup)) <==> AllRecorded(backup)
  {
    var w' := Restored(w, backup);
    assert forall v :: v in w'.votes && v.at <= w'.watermark && w'.watermark != UNSET ==> v in backup.votes;
    assert forall v :: v in backup.votes ==> v in w'.votes;
  }

  /** What an event must meet for old votes to stay recorded. */
  predicate StepIsCareful(w: World, e: Event, backup: World) {
    match e
    case Recover(c) => MayForget(w, c)
    case Restore(_) => AllRecorded(backup)
    case _ => true
  }

  lemma StepKeepsRecordsExactlyWhen(w: World, e: Event, backup: World)
    requires Inv(w) && AllRecorded(w) && Inv(backup) && Grown(backup, w)
    ensures AllRecorded(Step(w, e, backup)) <==> StepIsCareful(w, e, backup)
  {
    match e
    case Sync(script, th, dry) =>
      PassAdvances(w, script, th, dry);
      AdvanceKeepsRecords(w, RunPass(w, script, th, dry).world);
    case Meanwhile(o) =>
      ApplyExtends(w, o);
      ExtendingAdvances(w, Apply(w, o));
      AdvanceKeepsRecords(w, Apply(w, o));
    case Recover(c) => ForgetKeepsRecordsExactlyWhen(w, c);
    case Restore(_) => RestoreKeepsRecordsExactlyWhen(w, backup);
  }

  // ---------- whole runs ----------

  /** After the k-th event, every forget is one that may be given in the state
      it is given in, and no backup from before that event is restored unless it
      had every old vote recorded. */
  predicate CareSince(w: World, es: seq<Event>, k: nat) {
    |es| > k ==>
      && CareSince(w, Front(es), k)
      && match Last(es) {
           case Recover(c) => MayForget(Exec(w, Front(es)), c)
           case Restore(_) => BackupOf(es) >= k || AllRecorded(Exec(w, es[..BackupOf(es)]))
           case _ => true
         }
  }

  /** From the k-th event on, every vote at or below the watermark is at all
      times readable and recorded. */
  predicate RecordedSince(w: World, es: seq<Event>, k: nat) {
    AllRecorded(Exec(w, es)) && (|es| > k ==> RecordedSince(w, Front(es), k))
  }

  lemma {:induction false} RecordedAt(w: World, es: seq<Event>, k: nat, i: nat)
    requires RecordedSince(w, es, k) && k <= i <= |es|
    ensures AllRecorded(Exec(w, es[..i]))
  {
    if i < |es| {
      RecordedAt(w, Front(es), k, i);
      assert Front(es)[..i] == es[..i];
    } else {
      assert es[..i] == es;
    }
  }

  /** A point from which on the question is open: the start of the run, or just
      after a clean pass. */
  predicate Fresh(w: World, es: seq<Event>, k: nat) {
    k <= |es| && (k == 0 || EndsClean(w, es[..k]))
  }

  predicate EndsClean(w: World, es: seq<Event>) {
    es != [] && match Last(es) {
      case Sync(script, th, dry) => RunPass(Exec(w, Front(es)), script, th, dry).end.Clean?
      case _ => false
    }
  }

  lemma FreshIsRecorded(w: World, es: seq<Event>, k: nat)
    requires Initial(w) && Fresh(w, es, k)
    ensures AllRecorded(Exec(w, es[..k]))
  {
    if k > 0 {
      var before, e := Front(es[..k]), Last(es[..k]);
      ReachableStatesAreGood(w, before);
      CleanPassHeals(Exec(w, before), e.script, e.th, e.dry);
    }
  }

  lemma LastStepIsCarefulExactlyWhen(w: World, es: seq<Event>, k: nat)
    requires Initial(w) && |es| > k && RecordedSince(w, Front(es), k)
    ensures AllRecorded(Exec(w, es)) <==> StepIsCareful(Exec(w, Front(es)), Last(es), Exec(w, es[..BackupOf(es)]))
    ensures BackupOf(es) >= k ==> AllRecorded(Exec(w, es[..BackupOf(es)]))
  {
    var n := BackupOf(es);
    ReachableStatesAreGood(w, Front(es));
    ReachableStatesAreGood(w, es[..n]);
    assert Front(es)[..n] == es[..n];
    RunsGrow(w, Front(es), n);
    StepKeepsRecordsExactlyWhen(Exec(w, Front(es)), Last(es), Exec(w, es[..n]));
    if n >= k {
      RecordedAt(w, Front(es), k, n);
    }
  }

  lemma {:induction false} RecordedFromThereExactlyWhen(w: World, es: seq<Event>, k: nat)
    requires Initial(w) && k <= |es| && AllRecorded(Exec(w, es[..k]))
    ensures RecordedSince(w, es, k) <==> CareSince(w, es, k)
  {
    if |es| == k {
      assert es[..k] == es;
    } else {
      assert Front(es)[..k] == es[..k];
      RecordedFromThereExactlyWhen(w, Front(es), k);
      if RecordedSince(w, Front(es), k) {
        LastStepIsCarefulExactlyWhen(w, es, k);
      }
    }
  }

  /** No like is ever lost. Over every run of passes that fail or die anywhere,
      votes, hand edits, review commands, resyncs and restored backups: from a
      fresh database, and again from every clean pass on, every vote at or below
      the watermark is at all times readable and in the ledger or the review
      queue, if and only if care was taken since. A run without --forget needs
      no care from its start. */
  lemma RecordedSinceExactlyWhen(w: World, es: seq<Event>, k: nat)
    requires Initial(w) && Fresh(w, es, k)
    ensures RecordedSince(w, es, k) <==> CareSince(w, es, k)
  {
    FreshIsRecorded(w, es, k);
    RecordedFromThereExactlyWhen(w, es, k);
  }

  /** Every forget was one that may be given in the state it was given in. */
  predicate AllMayForget(w: World, es: seq<Event>) {
    forall i :: 0 <= i < |es| && es[i].Recover? ==> MayForget(Exec(w, es[..i]), es[i].c)
  }

  lemma AllMayForgetFront(w: World, es: seq<Event>)
    requires es != []
    ensures AllMayForget(w, es) <==>
            AllMayForget(w, Front(es)) && (Last(es).Recover? ==> MayForget(Exec(w, Front(es)), Last(es).c))
  {
    var front := Front(es);
    assert es[..|es| - 1] == front;
    forall i | 0 <= i < |front|
      ensures front[i] == es[i] && front[..i] == es[..i]
    {
    }
  }

  /** From the start only forgets need care. */
  lemma {:induction false} OnlyForgetsNeedCare(w: World, es: seq<Event>)
    ensures CareSince(w, es, 0) <==> AllMayForget(w, es)
  {
    if es != [] {
      OnlyForgetsNeedCare(w, Front(es));
      AllMayForgetFront(w, es);
    }
  }

  /** What is true of a vote at or below the watermark in every reachable
      state: it was readable, and its track is recorded, or care was not taken
      since the start, and since the last clean pass, and it will be read again
      through a later vote for the same track. */
  lemma NoLikeIsEverLost(w: World, es: seq<Event>, k: nat, v: Vote)
    requires Initial(w) && Fresh(w, es, k)
    requires v in Exec(w, es).votes && !Judge(v.row).RowFiltered?
    requires Exec(w, es).watermark != UNSET && v.at <= Exec(w, es).watermark
    ensures Judge(v.row).RowOk?
    ensures var w', id := Exec(w, es), Judge(v.row).track.trackId;
            id in w'.ledger || id in w'.queue || (StillToRead(w', id) && !CareSince(w, es, k))
  {
    ReachableStatesAreGood(w, es);
    RecordedSinceExactlyWhen(w, es, k);
  }

  predicate SameTrack(u: Vote, v: Vote) {
    Judge(v.row).RowOk? && IsVoteFor(u, Judge(v.row).track.trackId)
  }

  /** Whatever was forgotten, at or below the watermark means recorded for
      every track none of whose votes is above it, however often it was liked. */
  lemma LikeBelowWatermarkIsRecorded(w: World, es: seq<Event>, v: Vote)
    requires Initial(w)
    requires v in Exec(w, es).votes && !Judge(v.row).RowFiltered?
    requires Exec(w, es).watermark != UNSET && v.at <= Exec(w, es).watermark
    requires forall u :: u in Exec(w, es).votes && SameTrack(u, v) ==> u.at <= Exec(w, es).watermark
    ensures Judge(v.row).RowOk? && OnRecord(Exec(w, es), Judge(v.row).track.trackId)
  {
    NoLikeIsEverLost(w, es, 0, v);
  }

  /** After a clean pass, whatever went before it, every vote there was when it
      started is recorded, also those above the watermark it leaves. */
  lemma CleanPassRecordsEveryLike(w: World, es: seq<Event>, s: PassScript, th: Thresholds, v: Vote)
    requires Initial(w)
    requires RunPass(Exec(w, es), s, th, false).end.Clean?
    requires v in Exec(w, es).votes && !Judge(v.row).RowFiltered?
    ensures Judge(v.row).RowOk?
    ensures OnRecord(RunPass(Exec(w, es), s, th, false).world, Judge(v.row).track.trackId)
  {
    ReachableStatesAreGood(w, es);
    CleanPassRecordsEverything(Exec(w, es), s, th, false, v);
  }

  // ---------- one vote per track ----------

  predicate OneVotePerTrack(w: World) {
    forall u, v :: u in w.votes && v in w.votes && SameTrack(u, v) ==> u == v
  }

  lemma OneVoteMayForget(w: World, c: Command)
    requires Inv(w) && OneVotePerTrack(w)
    ensures MayForget(w, c)
  {
    if !c.ClearsMark() {
      assert c == Command(false, c.forget, false);
      StoredTimesOf(w);
      ForgetClearsBothSuppressors(w, c.forget);
      forall v | v in w.votes && Judge(v.row).RowOk? && LosesItsRow(w, c.forget, Judge(v.row).track.trackId)
        ensures Resynced(w, c).watermark == UNSET || v.at > Resynced(w, c).watermark
      {
        var id := Judge(v.row).track.trackId;
        var u :| u in w.votes && IsVoteFor(u, id) && Stored(u.at) == w.ledger[id].likedAt;
        assert SameTrack(u, v);
      }
    }
  }

  /** With one vote per track no forget needs care. */
  lemma {:induction false} OneVotePerTrackIsCareEnough(w: World, es: seq<Event>)
    requires Initial(w) && OneVotePerTrack(Exec(w, es))
    ensures CareSince(w, es, 0) && RecordedSince(w, es, 0)
  {
    if es != [] {
      var front, last := Front(es), Last(es);
      ReachableStatesAreGood(w, front);
      StepGrows(Exec(w, front), last, Exec(w, es[..BackupOf(es)]));
      OneVotePerTrackIsCareEnough(w, front);
      if last.Recover? {
        OneVoteMayForget(Exec(w, front), last.c);
      }
    }
    RecordedSinceExactlyWhen(w, es, 0);
  }
}
