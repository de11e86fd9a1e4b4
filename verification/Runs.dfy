/** Whole runs: any number of passes, dying anywhere, with new votes, hand
    edits, review commands, completed resyncs and restored databases in between. */
module Runs {
  import opened Common
  import opened Difm
  import opened DifmWalk
  import opened World
  import opened Pass
  import opened Resync
  import opened NoLoss
  import opened PlaylistSafety

  /** Restore puts back the database as it was after so many events of the same
      run; with fewer events so far it does nothing. */
  datatype Event =
    | Sync(script: PassScript, th: Thresholds, dry: bool)
    | Meanwhile(o: Outside)
    | Recover(c: Command)
    | Restore(to: nat)

  /** An older database beside accounts that have moved on. */
  function Restored(w: World, backup: World): World {
    w.(ledger := backup.ledger, queue := backup.queue, watermark := backup.watermark)
  }

  /** backup is the state a restore brings the database back from. */
  function Step(w: World, e: Event, backup: World): World {
    match e
    case Sync(script, th, dry) => RunPass(w, script, th, dry).world
    case Meanwhile(o) => Apply(w, o)
    case Recover(c) => Resynced(w, c)
    case Restore(_) => Restored(w, backup)
  }

  function Exec(w: World, es: seq<Event>): World {
    if es == [] then w else Step(Exec(w, Front(es)), Last(es), Exec(w, es[..BackupOf(es)]))
  }

  /** How many events had happened when the backup the last event restores was
      taken. */
  function BackupOf(es: seq<Event>): (n: nat)
    requires es != []
    ensures n < |es|
  {
    if Last(es).Restore? && Last(es).to < |es| then Last(es).to else |es| - 1
  }

  /** A fresh database beside accounts that already have a history. */
  ghost predicate Initial(w: World) {
    && Sane(w) && w.ledger == map[] && w.queue == map[] && w.watermark == UNSET
    && HistoryKnows(w) && multiset(w.playlist) <= w.byHand
  }

  // ---------- resync ----------

  lemma StoredTimesOf(w: World)
    requires Sane(w)
    ensures StoredTimes(w.ledger)
  {
    forall id | id in w.ledger
      ensures w.ledger[id].likedAt > 0 && w.ledger[id].likedAt % MILLISECOND == 0
    {
      var v :| v in w.votes && IsVoteFor(v, id) && Stored(v.at) == w.ledger[id].likedAt;
    }
  }

  lemma ForgetKeepsCoverage(w: World, ids: seq<int>)
    requires Inv(w)
    ensures Inv(Resynced(w, Command(false, ids, false)))
  {
    var w' := Resynced(w, Command(false, ids, false));
    StoredTimesOf(w);
    ForgetClearsBothSuppressors(w, ids);
    forall v | v in w'.votes && !Judge(v.row).RowFiltered? && v.at <= w'.watermark && w'.watermark != UNSET
      ensures Covered(w', v)
    {
      assert Covered(w, v);
      var id := Judge(v.row).track.trackId;
      if id in w.ledger && id in ids {
        var u :| u in w.votes && IsVoteFor(u, id) && Stored(u.at) == w.ledger[id].likedAt;
        assert After(u, w'.watermark);
      } else if StillToRead(w, id) {
        var u :| u in w.votes && IsVoteFor(u, id) && After(u, w.watermark);
        assert After(u, w'.watermark);
      }
    }
  }

  lemma ResyncKeepsInv(w: World, c: Command)
    requires Inv(w)
    ensures Inv(Resynced(w, c))
  {
    if !c.ClearsMark() {
      assert c == Command(false, c.forget, false);
      ForgetKeepsCoverage(w, c.forget);
    } else if !c.forgetAll && c.forget != [] {
      ForgetRemoves(w.ledger, c.forget);
    }
  }

  lemma ResyncIsSafe(w: World, c: Command)
    requires Safe(w)
    ensures Safe(Resynced(w, c))
  {
    ForgetRemoves(w.ledger, c.forget);
  }

  // ---------- restore ----------

  /** w' came later: votes, clock and history have only grown. */
  predicate Grown(w: World, w': World) {
    && w.clock <= w'.clock && Remembers(w, w')
    && (forall v :: v in w.votes ==> v in w'.votes)
    && (forall v :: v in w'.votes ==> v in w.votes || v.at > w.clock)
  }

  lemma RestoreIsSane(w: World, backup: World)
    requires Sane(w) && Sane(backup) && Grown(backup, w)
    ensures Sane(Restored(w, backup))
  {
    forall id | id in backup.ledger
      ensures CastAt(w.votes, id, backup.ledger[id].likedAt)
    {
      var v :| v in backup.votes && IsVoteFor(v, id) && Stored(v.at) == backup.ledger[id].likedAt;
      assert v in w.votes;
    }
    forall id | id in backup.queue
      ensures CastAt(w.votes, id, backup.queue[id].likedAt)
    {
      var v :| v in backup.votes && IsVoteFor(v, id) && Stored(v.at) == backup.queue[id].likedAt;
      assert v in w.votes;
    }
  }

  /** Likes the restored database has not heard of are above its watermark. */
  lemma RestoreKeepsInv(w: World, backup: World)
    requires Inv(w) && Inv(backup) && Grown(backup, w)
    ensures Inv(Restored(w, backup))
  {
    var w' := Restored(w, backup);
    RestoreIsSane(w, backup);
    forall v | v in w'.votes && !Judge(v.row).RowFiltered? && v.at <= w'.watermark && w'.watermark != UNSET
      ensures Covered(w', v)
    {
      assert v in backup.votes && Covered(backup, v);
      var id := Judge(v.row).track.trackId;
      if StillToRead(backup, id) {
        var u :| u in backup.votes && IsVoteFor(u, id) && After(u, backup.watermark);
        assert u in w'.votes;
      }
    }
  }

  lemma RestoreIsSafe(w: World, backup: World)
    requires Safe(w) && Safe(backup) && Grown(backup, w)
    ensures Safe(Restored(w, backup))
  {
  }

  // ---------- every reachable state ----------

  lemma StepKeepsGood(w: World, e: Event, backup: World)
    requires Inv(w) && Safe(w) && Inv(backup) && Safe(backup) && Grown(backup, w)
    ensures Inv(Step(w, e, backup)) && Safe(Step(w, e, backup))
  {
    match e
    case Sync(script, th, dry) =>
      PassKeepsInv(w, script, th, dry);
      PassIsSafe(w, script, th, dry);
    case Meanwhile(o) =>
      ApplyExtends(w, o);
      ExtendingAdvances(w, Apply(w, o));
      AdvanceKeepsInv(w, Apply(w, o));
      ApplyIsSafe(w, o);
    case Recover(c) =>
      ResyncKeepsInv(w, c);
      ResyncIsSafe(w, c);
    case Restore(_) =>
      RestoreKeepsInv(w, backup);
      RestoreIsSafe(w, backup);
  }

  lemma AdvancesGrows(w: World, w': World)
    requires Advances(w, w') && Remembers(w, w')
    ensures Grown(w, w')
  {
  }

  lemma StepGrows(w: World, e: Event, backup: World)
    requires Inv(w)
    ensures Grown(w, Step(w, e, backup))
  {
    match e
    case Sync(script, th, dry) =>
      PassAdvances(w, script, th, dry);
      PassRemembers(w, script, th, dry);
      AdvancesGrows(w, RunPass(w, script, th, dry).world);
    case Meanwhile(o) =>
      ApplyExtends(w, o);
      ExtendingAdvances(w, Apply(w, o));
      ApplyRemembers(w, o);
      AdvancesGrows(w, Apply(w, o));
    case Recover(c) =>
    case Restore(_) =>
  }

  lemma GrownTransitive(a: World, b: World, c: World)
    requires Grown(a, b) && Grown(b, c)
    ensures Grown(a, c)
  {
  }

  lemma {:induction false} ReachableStatesAreGood(w: World, es: seq<Event>)
    requires Initial(w)
    ensures Inv(Exec(w, es)) && Safe(Exec(w, es))
    decreases |es|, 1
  {
    if es != [] {
      var n := BackupOf(es);
      ReachableStatesAreGood(w, Front(es));
      ReachableStatesAreGood(w, es[..n]);
      assert Front(es)[..n] == es[..n];
      RunsGrow(w, Front(es), n);
      StepKeepsGood(Exec(w, Front(es)), Last(es), Exec(w, es[..n]));
    }
  }

  lemma {:induction false} RunsGrow(w: World, es: seq<Event>, n: nat)
    requires Initial(w) && n <= |es|
    ensures Grown(Exec(w, es[..n]), Exec(w, es))
    decreases |es|, 0
  {
    if n == |es| {
      assert es[..n] == es;
    } else {
      ReachableStatesAreGood(w, Front(es));
      assert Front(es)[..n] == es[..n];
      RunsGrow(w, Front(es), n);
      StepGrows(Exec(w, Front(es)), Last(es), Exec(w, es[..BackupOf(es)]));
      GrownTransitive(Exec(w, es[..n]), Exec(w, Front(es)), Exec(w, es));
    }
  }

  // ---------- the playlist and the ledger ----------

  /** The ledger is never ahead of Spotify: every row's track has been in the
      playlist. */
  lemma LedgerIsNeverAhead(w: World, es: seq<Event>, id: int)
    requires Initial(w) && id in Exec(w, es).ledger
    ensures Exec(w, es).ledger[id].spotifyId in Exec(w, es).history
  {
    ReachableStatesAreGood(w, es);
  }

  lemma RepeatCountsTwice(ids: seq<SpotifyId>, i: nat, j: nat)
    requires i < j < |ids| && ids[i] == ids[j]
    ensures multiset(ids)[ids[i]] >= 2
  {
    var a, b := ids[..j], ids[j..];
    assert ids == a + b;
    assert a[i] in multiset(a) && b[0] in multiset(b);
    assert multiset(ids) == multiset(a) + multiset(b);
  }

  /** Over any run, a track stands in the playlist at most once more than it
      was put there by hand; with no hand edits, at most once. */
  lemma DaemonNeverDuplicates(w: World, es: seq<Event>, id: SpotifyId)
    requires Initial(w)
    ensures multiset(Exec(w, es).playlist)[id] <= 1 + Exec(w, es).byHand[id]
    ensures Exec(w, es).byHand == multiset{} ==> Distinct(Exec(w, es).playlist)
  {
    ReachableStatesAreGood(w, es);
    var playlist := Exec(w, es).playlist;
    forall i, j | 0 <= i < j < |playlist| && playlist[i] == playlist[j]
      ensures Exec(w, es).byHand != multiset{}
    {
      RepeatCountsTwice(playlist, i, j);
    }
  }
}
