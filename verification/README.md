# difmsync: a verified model

difmsync copies the tracks a DI.fm listener has upvoted into a Spotify
playlist, one way and add-only. It runs as a daemon, one pass at a time, on top
of several states that fail independently: the DI.fm vote list, the playlist,
a ledger of synced tracks, a review queue, a watermark, and a refresh token.
This project models those states and the code that moves between them, and
proves what the ordering of its writes buys.

| file | what it holds |
|---|---|
| `Common.dfy` | optional values, times (nanoseconds, 0 is Go's zero time), the fates of a read or write |
| `Difm.dfy`, `DifmWalk.dfy` | the paginated walk over the votes, and its equality with "read everything, filter, reverse" |
| `Likes.dfy` | which records are likes, what a like carries, and how a walk ends |
| `IdlessLikes.dfy` | the same walk when usable records may lack an id |
| `World.dfy`, `Pass.dfy` | the shared state, everyone else's steps, and a pass as a function of everything its external calls did |
| `Engine.dfy` | the engine, Spotify and the store as objects updated in place; `Engine.Pass` computes `RunPass` |
| `Filing.dfy`, `CleanFiling.dfy` | what a pass writes into the review queue and the ledger, and counts |
| `Approvals.dfy` | what an approval places and a rejection leaves |
| `Resync.dfy` | the recovery command |
| `NoLoss.dfy`, `PlaylistSafety.dfy`, `Runs.dfy` | the invariants of one pass, and of every run of passes, crashes, votes, approvals, resyncs and restored databases |
| `Recorded.dfy` | over every run, when the likes below the watermark are recorded, and how a clean pass heals what a forget left out |
| `CleanPasses.dfy` | when a pass ends clean |
| `CarelessForgets.dfy` | concrete runs in which a forget goes wrong |
| `Watermark.dfy`, `Convergence.dfy`, `DryRun.dfy` | a clean pass is not read again; later passes post nothing; a dry run predicts a real one |
| `PlaylistRead.dfy` | the paginated playlist read |
| `EditDistance.dfy`, `Score.dfy`, `ScoreBands.dfy`, `TextNormalize.dfy` | the matcher's arithmetic over the reals, what it adds, queues and turns down, and the text normalizer |
| `TokenRunner.dfy`, `TokenRounds.dfy` | the consent / loop / compare-and-clear machine, and when each of its steps happens |
| `RunLog.dfy`, `StatusReport.dfy` | run rows, the health verdict, pruning, and what the report says |
| `FullDate.dfy`, `Snapshots.dfy`, `SnapshotPruning.dfy` | dated snapshots, pruning, the reported last backup |

Nothing outside is trusted to work. A pass takes a script saying of every call
whether it answered, failed, succeeded with a lost reply, or whether the process
died on either side of it, and what other processes did in between. The
theorems hold for all scripts, so for every failure and every crash point.
Methods written in the source's imperative form are proved equal to functions
of the old state and the script; the theorems are about those functions.

## Assumptions about the environment

- Votes are newest first and their non-zero ids differ. A record that decodes
  has a non-zero id; `IdlessLikes.dfy` says what the walk does without this. A
  record without a recoverable id is allowed anywhere, because the walk handles
  it. The vote list does not change during one walk. Votes are never withdrawn.
- A later like has a strictly later time than every like before it, because
  the watermark filter is strict. Times are later than one second after the
  zero time.
- The store keeps times to the millisecond, rounding down. This is modelled.
- A resync runs to completion between passes. `InterruptedForgetStrandsALike`
  shows this is needed.
- A database is restored between passes, from a backup taken between passes of
  the same run, as the daemon takes its own.
- A read of the playlist is exact, and nobody writes to the playlist between
  the second read and the last POST, nor between an approval's read and its
  POST. Between the last POST and the commit anything may happen.
- There is one account and one playlist.

## What did not hold as stated

- `internal/syncer/engine.go:146-155` and `cmd/difmsync/resync.go:111-116`: a
  like the watermark has passed is recorded, and a rewind lets a forgotten one
  be seen again. If several votes name one track, forgetting its row can leave
  an earlier vote for it at or below the new watermark and unrecorded
  (`ForgetCanUncoverAnEarlierVote`, a run from a fresh database). That, and a
  backup taken in such a state, is the only way: `RecordedSinceExactlyWhen`. A
  later vote for the track is then read again, and the next clean pass records
  it (`CleanPassHeals`).
- `pkg/difm/difm.go:56-68`: a walk that dropped records returns every like that
  was read, at the cost of re-reading. A page in which no record has a
  recoverable id looks like a server repeating itself, so the walk also hides
  every older page (`StalledPageHidesOlderLikes`). The exact condition is
  `WalkIsExactExactlyWhen`. The watermark is held, so nothing is lost.
- `pkg/difm/difm.go:56-68`: a skipped like is never reported as success. A
  usable record whose id is 0 is skipped by `pkg/difm/difm.go:202-205` and
  counted nowhere, so a walk can miss it without an error
  (`IdlessLikeIsPassedOver`). The exact condition is
  `NilErrorIsExactExactlyWhen`, and for every walk that neither failed nor was
  truncated `IdlessWalkIsExactExactlyWhen`.
- `cmd/difmsync/runloop.go:99-101`: a match means the stored token is the one
  refused. If the store write of a renewed token failed, the refused token is
  the renewed one and the erased token the one before it
  (`UnstoredRenewalErasesTheWrongToken`). The exact condition is
  `ClearErasesOnlyTheRefusedToken`.
- `cmd/difmsync/runloop.go:116-117`: each retry needs another write to have
  landed. That write can be the engine's own, when its reply was lost
  (`LostReplyCostsALoop`). With nobody else writing, that is exactly when
  (`RetriesWithNothingClearedExactlyWhen`); without lost replies the bound
  holds (`RunnerCannotSpin`).
- `internal/syncer/backup.go:87-91` and `internal/syncer/backup.go:140-141`: the
  path a run reports as written may be gone, because the prune that follows
  deletes the new snapshot when enough others carry later dates
  (`NewSnapshotCanGoAtOnce`). The exact condition is
  `OwnPruneSparesTheNewSnapshotExactlyWhen`.

One condition concerns direct calls of `Score` only: a track with an empty
artist name does not score 1 against itself (`SelfScoreIsOneExactlyWhen`).
Parsed tracks have none, since `pkg/match/normalize.go:280-288` drops empty
names.

## Model

| member | source | states |
|---|---|---|
| Difm.FetchPage | pkg/difm/difm.go:360-393 | one page: usable likes in order, every recoverable id, and one drop per record that is undecodable or decodes into something unusable |
| Difm.ReverseBySwaps | pkg/difm/difm.go:232-234 | the two-ended swap loop reverses the list |
| Difm.ListLikedTracks | pkg/difm/difm.go:163-249 | the loop equals the recursive walk for any server whatever, and asks at most 200 times |
| Likes.JudgeMeans | pkg/difm/difm.go:425-492 | a record is a like exactly when it is an upvote with a track, an id, a title and a time; it carries the vote's track id before the track's, the display title before the plain one, and is passed over exactly for an episode, a mix or more than 900 seconds |
| Likes.ReturnedIsUpvoted | pkg/difm/difm.go:163-249 | every track a walk returns comes from an upvote newer than the watermark and says what that record says |
| Likes.NewerUpvoteIsReturned | pkg/difm/difm.go:163-249 | after a walk without an error no newer upvote is missing, and none was unreadable |
| Likes.WalkIsOldestFirst | pkg/difm/difm.go:230-234 | however a walk ends, it returns its likes oldest first |
| Likes.WalkEndsWhere | pkg/difm/difm.go:163-249 | the first page that cannot be had fails the walk with its own fault and no likes; the first page without a new id, or with only old likes, ends it; 200 pages of neither truncate it |
| DifmWalk.WalkStep | pkg/difm/difm.go:183-237 | a page of votes not met before contributes exactly its likes newer than the watermark and its unreadable records; the walk stops on an empty page, a page without new ids, or a page with likes of which none is newer |
| DifmWalk.WalkNormalForm | pkg/difm/difm.go:163-249 | a walk that did not fail returns the filtered votes up to where it stopped, reversed, for any cut into non-empty pages |
| DifmWalk.StopIsSound | pkg/difm/difm.go:205-237 | where the walk stops of its own accord, nothing newer lies beyond, or the stop is on a record without an id and the walk reports a drop |
| DifmWalk.CleanWalkMissesNothing | pkg/difm/difm.go:163-249 | a nil error means exactly the readable upvotes newer than the watermark, oldest first, and no newer vote unreadable |
| DifmWalk.WalkIsExactExactlyWhen | pkg/difm/difm.go:163-249 | a walk neither failed nor truncated is exact if and only if no newer like lies beyond a page whose records all lack a recoverable id |
| DifmWalk.InexactWalkSaysSo | pkg/difm/difm.go:56-68 | when it is not exact it reports a drop, and it stopped on a record without an id |
| DifmWalk.WalkReturnsLikes | pkg/difm/difm.go:163-249 | every returned like is a real vote newer than the watermark |
| DifmWalk.StalledPageHidesOlderLikes | pkg/difm/difm.go:205-237 | a page of records without ids hides every older page |
| IdlessLikes.IdlessWalkIsExactExactlyWhen | pkg/difm/difm.go:193-225 | whatever ids are missing, a walk neither failed nor truncated is exact if and only if no newer like lacks an id and none lies beyond a page without a recoverable id |
| IdlessLikes.NilErrorIsExactExactlyWhen | pkg/difm/difm.go:202-205 | if only usable records can lack an id, a walk without an error is exact if and only if no newer like lacks one |
| IdlessLikes.IdlessLikeIsPassedOver | pkg/difm/difm.go:202-205 | a concrete list whose like with id 0 is missing although no error is reported |
| Engine.Spotify.PostBatch | pkg/spotify/spotify.go:479-497 | one POST appends all of its ids or none, whatever its reply |
| Engine.Spotify.AddToPlaylist | pkg/spotify/spotify.go:479-497 | requests of 100 ids in order, the last with what is left, stopping after the first that is not acknowledged; what landed is appended to the playlist |
| PlaylistSafety.PostedIsAPrefix | pkg/spotify/spotify.go:479-497 | what landed is a prefix of the ids, and all of them when no error is returned |
| PlaylistSafety.PostsGoByTheHundred | pkg/spotify/spotify.go:479-497 | when the k-th request is the first not acknowledged, exactly the first 100 k ids have landed, or that request's hundred as well if it landed all the same |
| Engine.Store.RecordSynced | internal/store/sqlite/gen/synced_tracks.sql.go:98-104 | a repeated ledger row is a no-op |
| Engine.Store.Enqueue | internal/store/sqlite/gen/review_queue.sql.go:43-58 | a repeated queue row refreshes everything but the human's decision |
| Engine.Store.ResolveReview | internal/store/sqlite/ops.go:280-287 | sets the decision of an existing row and says whether there was one |
| Engine.Store.SetWatermark | internal/store/sqlite/ops.go:129-134 | the stored time is cut to the millisecond |
| Common.Stored | internal/store/sqlite/ops.go:129-134 | stored times round down by less than a millisecond |
| Engine.Store.Commit | internal/store/sqlite/store.go:198-218 | ledger rows and watermark become visible together or not at all |
| Engine.Engine.Place | cmd/difmsync/main.go:826-863 | an approval posts only what is absent, then records, then resolves, and stops at the first step not acknowledged |
| Engine.Engine.ApproveReview | cmd/difmsync/main.go:793-871 | an unknown item or candidate, or a failed read, changes nothing |
| Engine.Engine.Record | internal/syncer/engine.go:186-197 | a like is counted and passed by the high-water mark only after its queue write |
| Engine.Engine.Handle | internal/syncer/engine.go:259-347 | what one like does to the pass's variables and the queue, in each branch, and with other processes at work |
| Engine.Engine.Close | internal/syncer/engine.go:401-434 | one transaction for rows and watermark; the watermark moves only on a clean, uncanceled pass and only forward |
| Engine.Engine.Add | internal/syncer/engine.go:363-434 | re-read, drop what arrived, post the rest, then commit; any failure before leaves ledger and watermark alone |
| Engine.Engine.Pass | internal/syncer/engine.go:104-455 | the whole pass, for every script of failures, crashes and outside changes, computes the specified outcome |
| Filing.ShortLikeIsFiled | internal/syncer/engine.go:259-347 | a like that is no track, or whose search falls short of the auto bar, gets a review row: its vote, its time, the first five candidates found, the first one's score, and low confidence exactly when that reaches the review bar; an earlier decision stays; counter and high-water mark move only on acknowledgement |
| Filing.MatchedLikeIsPending | internal/syncer/engine.go:301-331 | a like whose first candidate reaches the auto bar waits for the commit with that candidate's id and score, and for the playlist unless its id is there or about to be |
| Filing.OtherLikesChangeNothing | internal/syncer/engine.go:272-300 | throttling, a refused grant and a failed read stop the pass, any other search failure marks it incomplete and goes on, a synced track only moves the high-water mark |
| Filing.PassFilesFindings | internal/syncer/engine.go:259-347 | whatever happens, a pass loses no review row, and every row it leaves is the old finding or reviews one of the fetched likes |
| Filing.PassKeepsLedgerRows | internal/store/sqlite/gen/synced_tracks.sql.go:98-104 | whatever happens, a track once recorded keeps its row |
| CleanFiling.CleanPassFilesExactly | internal/syncer/engine.go:259-434 | a clean pass with no approvals beside it has added to the ledger exactly the matched likes' tracks and to the queue exactly the short ones', with the rows their searches answered for, and its four counts are exactly theirs |
| CleanFiling.OnlyTheCommitMovesTheLedger | internal/syncer/engine.go:404-434 | ledger and watermark move only in a commit that lands, of a pass that is real and not canceled |
| Approvals.ApprovalPlacesTheChosen | cmd/difmsync/main.go:793-871 | approving the n-th candidate adds that one unless it is there, records it under the queued vote, marks the item approved, and changes nothing else |
| Approvals.ApprovalKeepsItsOrder | cmd/difmsync/main.go:826-863 | whatever fails, nothing is recorded before its track is known to be in the playlist, and nothing decided before it is recorded; without such an item or candidate nothing happens |
| Approvals.RejectionOnlyMarks | cmd/difmsync/main.go:744-753 | a rejection marks its item rejected and does nothing else |
| Approvals.ChoosingPlacesWhatWasFound | cmd/difmsync/main.go:793-871 | after a like was queued, choosing n places the n-th candidate of its search, for n up to five |
| NoLoss.ApplyExtends | cmd/difmsync/main.go:793-871 | new votes, hand edits and review commands remove nothing recorded and keep every row traceable to a vote |
| NoLoss.LikeStepOk | internal/syncer/engine.go:259-347 | a like left behind by a still-clean pass is in the ledger, in the queue, or pending for the commit |
| NoLoss.CommittedAdvances | internal/syncer/engine.go:401-434 | the commit moves the watermark only over votes that are readable and recorded |
| NoLoss.PassAdvances | internal/syncer/engine.go:104-455 | a pass that fails or dies anywhere removes nothing and moves the watermark only if every newer vote there was is recorded; one that ends clean recorded every newer vote |
| NoLoss.PassKeepsInv | internal/syncer/engine.go:104-455 | so it leaves no like at or below the watermark uncovered |
| NoLoss.CleanPassRecordsEverything | internal/syncer/engine.go:146-170 | after a clean pass every vote there was is recorded, also those in the millisecond above the stored watermark, and those a forget had left unrecorded |
| NoLoss.CleanPassHeals | internal/syncer/engine.go:146-170 | from any state that keeps the coverage invariant, a clean pass leaves every vote at or below the watermark recorded |
| CleanPasses.PassIsCleanExactlyWhen | internal/syncer/engine.go:104-455 | a pass whose other calls all succeed ends clean if and only if its walk ended without an error |
| CleanPasses.PassEndsWithItsWalk | internal/syncer/engine.go:104-455 | when nothing else fails, dropped records make a pass incomplete and a truncated or failed walk aborts it |
| CleanPasses.AddingEndsAs | internal/syncer/engine.go:363-455 | a failed re-read, a canceled context or a commit that is not acknowledged aborts the pass |
| CleanPasses.CleanMeansNothingFailed | internal/syncer/engine.go:104-455 | a clean end rules out every failure of the walk, of a read, and of a skipped like's queue write, and cancellation |
| CleanPasses.DryRunEndsWithItsWalk | internal/syncer/engine.go:349-361 | a dry run that gets through its likes ends as one, also when records were dropped |
| CleanPasses.FetchedIsReported | internal/syncer/engine.go:228 | however a pass ends, once its walk returned likes it reports how many |
| CleanPasses.HealthyPassIsClean | internal/syncer/engine.go:104-455 | it does when no page fails, every record is readable and the votes end before the 200th page |
| PlaylistSafety.PassIsSafe | internal/syncer/engine.go:242-395 | what a pass posts was absent from the playlist and is posted once, also when likes share a Spotify track, replies are lost or batches stop half-way; ledger rows stay behind the playlist |
| PlaylistSafety.ApplyIsSafe | cmd/difmsync/main.go:826-856 | approvals interleaved with a pass neither duplicate a track nor put the ledger ahead |
| Resync.Run | cmd/difmsync/resync.go:60-135 | the command's new ledger and watermark, its refusal when there is nothing to do or no id matched, and that a refusal changes nothing |
| Resync.ResyncMeans | cmd/difmsync/resync.go:60-135 | what each flag does: forgetting all empties the ledger, naming tracks removes their rows, either of --all and --forget-all clears the watermark so that every vote is read again; nothing else changes |
| Resync.ForgetRemoves | cmd/difmsync/resync.go:80-98 | exactly the named rows go, with repeats and unknown ids among the ids |
| Resync.ForgetCounts | cmd/difmsync/resync.go:80-98 | every id is a removed row counted once, or a miss |
| Resync.ForgetFindsEarliest | cmd/difmsync/resync.go:79-87 | the rewind starts from the earliest removed like, and is unset exactly when nothing was removed |
| Resync.ForgetClearsBothSuppressors | cmd/difmsync/resync.go:72-125 | every forgotten like is strictly after the new watermark; the watermark stays or moves to one second before one of them; nothing else changes |
| Runs.ForgetKeepsCoverage | cmd/difmsync/resync.go:111-124 | likes at or below the rewound watermark stay covered |
| Runs.ResyncKeepsInv | cmd/difmsync/resync.go:60-135 | so do they after every form of the command |
| Runs.RestoreKeepsInv | internal/syncer/engine.go:238-246 | so do they after an older database of the run is restored: what it has not heard of is above its watermark |
| Runs.ReachableStatesAreGood | internal/syncer/engine.go:58-104 | both invariants hold after every run of passes, votes, hand edits, review commands, resyncs and restored databases |
| Recorded.StepKeepsRecordsExactlyWhen | internal/syncer/engine.go:146-170 | passes, votes, hand edits, review commands and clearing resyncs always keep every vote at or below the watermark recorded; a forget does if and only if it may be given, a restore if and only if the backup had them recorded |
| Recorded.RecordedSinceExactlyWhen | internal/syncer/engine.go:146-170 | over every run, from the start and again from every clean pass on, every upvote at or below the watermark is at all times readable and in the ledger or the queue, if and only if since then each forget rewound past no vote whose only record it removed and no backup from before was restored with such a vote in it |
| Recorded.OnlyForgetsNeedCare | cmd/difmsync/resync.go:111-124 | counted from the start of the run, that is a condition on the forgets alone |
| Recorded.NoLikeIsEverLost | internal/syncer/engine.go:146-170 | in every reachable state every upvote at or below the watermark was readable and its track is in the ledger or the queue, or care was not taken both since the start and since any clean pass one may name, and a later vote for the track will be read |
| Recorded.LikeBelowWatermarkIsRecorded | internal/syncer/engine.go:146-170 | whatever was forgotten or restored, recorded for every track without a vote above the watermark, however often it was liked |
| Recorded.OneVotePerTrackIsCareEnough | cmd/difmsync/resync.go:111-124 | with one vote per track every forget may be given, and all is recorded throughout |
| Recorded.CleanPassRecordsEveryLike | internal/syncer/engine.go:146-170 | in every run, whatever was forgotten or restored before, a clean pass leaves every vote there was recorded |
| Runs.LedgerIsNeverAhead | internal/syncer/engine.go:309-316 | in every reachable state each ledger row's Spotify id had been in the playlist |
| Runs.DaemonNeverDuplicates | internal/syncer/engine.go:363-395 | over every run a track is in the playlist at most once beyond the copies added by hand |
| Recorded.ForgetKeepsRecordsExactlyWhen | cmd/difmsync/resync.go:111-124 | a resync leaves every vote at or below the watermark recorded if and only if it clears the watermark or moves it past no vote of a forgotten, unqueued track |
| Recorded.RestoreKeepsRecordsExactlyWhen | internal/syncer/engine.go:238-246 | restoring an older database leaves every vote at or below its watermark recorded if and only if they were recorded when it was taken |
| CarelessForgets.ForgetCanUncoverAnEarlierVote | cmd/difmsync/resync.go:111-124 | a run from a fresh database in which forgetting uncovers an earlier vote for the same track |
| CarelessForgets.InterruptedForgetStrandsALike | cmd/difmsync/resync.go:88-119 | a run from a fresh database after which a forget that stops between the ledger and the watermark strands a like |
| Watermark.CleanPassReachesTheNewestLike | internal/syncer/engine.go:164-434 | a clean pass leaves the watermark at the newest like of the list, to the millisecond, or where it was when nothing was new |
| Watermark.CleanPassIsNotReadAgain | internal/store/sqlite/ops.go:129-134 | of the votes a clean pass saw, the next reads again only ones in the newest like's millisecond, and none when times are whole milliseconds |
| Convergence.PassConverges | internal/syncer/engine.go:271-331 | with fixed search answers, a clean pass leaves every auto-matched like made so far in the playlist, and no pass undoes that |
| Convergence.SettledPassPostsOnlyLater | internal/syncer/engine.go:301-331 | then a pass posts only for later likes, whatever the ledger, queue and watermark hold |
| Convergence.SettledForGood | cmd/difmsync/resync.go:66-132 | no later event of a run, resync and restored database included, unsettles it |
| Convergence.SyncConverges | internal/syncer/engine.go:271-331 | after a clean pass every later pass of the run posts only for likes made after its start, whatever is forgotten or restored in between |
| Convergence.NothingNewNothingPosted | internal/syncer/engine.go:271-331 | with no new likes, later passes post nothing |
| DryRun.DryRunWritesNothing | internal/syncer/engine.go:349-361 | a dry run posts nothing, and the playlist, ledger, queue and watermark it leaves are what other processes made of them meanwhile, whatever fails |
| DryRun.DryRunPredictsRealRun | internal/syncer/engine.go:259-395 | with the same start and answers, and the real pass's writes succeeding, dry and real pass report equal Fetched, Added, Queued and Skipped, if nobody adds a track or approves one between the two playlist reads; likes cast, items rejected and tracks removed meanwhile do not matter |
| PlaylistRead.PlaylistTrackIds | pkg/spotify/spotify.go:506-557 | the offset loop equals the recursive read for any server |
| PlaylistRead.PlaylistReadIsExact | pkg/spotify/spotify.go:506-557 | against a playlist that stays put the read is exact, and fails exactly beyond the offset bound |
| PlaylistRead.PlaylistReadFailsExactlyWhen | pkg/spotify/spotify.go:506-557 | a read fails as a whole exactly when a page it asks for fails or the playlist has more than 100 100 items, 100 099 without totals; otherwise it is exact |
| EditDistance.DistIsCheapestScript | pkg/match/score.go:262-285 | some edit script achieves the distance and none is cheaper |
| EditDistance.DistSymmetric | pkg/match/score.go:262-285 | argument order does not matter |
| EditDistance.DistTriangle | pkg/match/score.go:262-285 | the triangle inequality |
| EditDistance.DistZeroIsEqual | pkg/match/score.go:262-285 | zero exactly for equal strings |
| EditDistance.DistBounds | pkg/match/score.go:262-285 | between the difference of the lengths and the longer length |
| EditDistance.FillRow | pkg/match/score.go:274-281 | one row of the table from the one before |
| EditDistance.Levenshtein | pkg/match/score.go:263-285 | the two-row, buffer-swapping, shorter-side-inner loop returns the distance |
| Score.RatioMeans | pkg/match/score.go:250-260 | in [0,1], symmetric, and 1 exactly for equal non-empty names |
| Score.VersionScoreMeans | pkg/match/score.go:121-188 | verdicts do not depend on argument order; full agreement exactly when nothing tells the versions apart, and short of it a conflict unless one version is unknown |
| Score.ComputeArtistSimilarity | pkg/match/score.go:215-237 | the nested loops compute the average of best matches, with the penalty for extra artists |
| Score.ArtistOrderDoesNotMatter | pkg/match/score.go:213-237 | permuting either artist list changes nothing |
| Score.ArtistSimilarityMeans | pkg/match/score.go:213-237 | in [0,1], and 1 exactly when every wanted name is non-empty and found and the other side names no more artists |
| Score.PermutedArtistsScoreOne | pkg/match/score.go:213-214 | any permutation of a non-empty list of non-empty names scores exactly 1 |
| Score.ScoreIsInUnitInterval | pkg/match/score.go:55-108 | before clamping the score already lies in [0,1] |
| Score.PerfectScoreMeans | pkg/match/score.go:65-108 | exactly when a score is 1 |
| Score.SelfScoreIsOneExactlyWhen | pkg/match/score.go:65-108 | a track scores 1 against itself if and only if its title, its artist list and every artist name are non-empty |
| Score.AutoAddMeans | pkg/match/score.go:65-108 | a score of at least 0.85 rules out a version conflict, a title similarity under 0.625 and an artist similarity of 0.64 or less |
| Score.AutoAddBoundsRuntime | pkg/match/score.go:157-211 | with an unknown version against a special one, it also forces known runtimes within 37 seconds |
| Score.RuntimeBoundIsTight | pkg/match/score.go:201-211 | 37 seconds is reached |
| ScoreBands.RatioCountsEdits | pkg/match/score.go:239-260 | similarity falls short of 1 by the edit distance as a share of the longer name |
| ScoreBands.RuntimesCount | pkg/match/score.go:200-211 | full within 3 seconds, nothing from 60 on, and every second between costs the same |
| ScoreBands.GateIsStraight | pkg/match/score.go:190-198 | the artist gate is open from 0.7 on and closes in a straight line to 0.45 |
| ScoreBands.ArtistsAreAveraged | pkg/match/score.go:213-237 | artist similarity is the average of the best matches, less three percent when the other side names more |
| ScoreBands.ScoreIsMadeOf | pkg/match/score.go:65-108 | the score is 0.4, 0.3, 0.2 and 0.1 parts of title, artists, version and runtime, out of nine tenths when a runtime is unknown, scaled by the artist gate and three quarters for a conflict |
| ScoreBands.ScoreIsMonotone | pkg/match/score.go:65-108 | agreeing better on any component never lowers a score |
| ScoreBands.VerdictsFollowTheRanks | pkg/match/score.go:155-188 | the order of the verdicts on different kinds of version, radio edit against extended mix worst, and which of them conflict |
| ScoreBands.UnconfirmedRemixIsNamed | pkg/match/score.go:132-151 | exactly a remix named on one side only is reported as unconfirmed, under that name, and is a conflict |
| ScoreBands.SameNamesDecideByVersion | pkg/match/score.go:121-188 | with the same names and no runtimes a song is added if and only if the versions do not conflict, and turned down if and only if a radio edit meets an extended mix or the remixers are alike to less than a third |
| ScoreBands.AgreeingSongsAreAdded | pkg/match/score.go:155-165 | with the same names and runtimes within three seconds or unknown, a song is added if and only if the versions do not conflict: an original mix against a bare title is |
| ScoreBands.ConflictsStayBelow | pkg/match/score.go:36-40 | conflicting versions never score more than 0.6825, however well all else agrees |
| ScoreBands.NobodyInCommonIsNoMatch | pkg/match/score.go:80-84 | without any artist in common a candidate scores at most 0.315, under the review bar |
| ScoreBands.ExtraArtistsAreAdded | pkg/match/score.go:231-235 | a collaborator credited on one side only costs no more than a hundredth |
| TextNormalize.StripDiacritics | pkg/match/normalize.go:111-125 | the builder loop folds table characters, drops combining marks and keeps the rest |
| TextNormalize.NormalizeSpellsTheWords | pkg/match/normalize.go:127-136 | the pipeline of rewrites keeps the words of the folded text, in order, one space apart, and nothing else |
| TextNormalize.SkeletonGrowsBy | pkg/match/normalize.go:95-136 | each character adds its lower-case form without its accent, and nothing if it is an apostrophe or a combining mark |
| TextNormalize.FixedExactlyWhenNormal | pkg/match/normalize.go:127-136 | it leaves exactly the normal forms alone: folded lower-case letters and digits in words one space apart |
| TextNormalize.NormalizeIsIdempotent | pkg/match/normalize.go:127-136 | normalizing twice equals normalizing once |
| TextNormalize.NormalizeComparesWords | pkg/match/normalize.go:127-136 | two texts normalize alike if and only if they have the same words |
| TokenRunner.TokenStore.ClearIf | internal/store/sqlite/gen/accounts.sql.go:12-15 | clears only if the stored token is the named one |
| TokenRunner.RotatingTokenSource.Token | pkg/spotify/spotify.go:183-202 | a renewed token is stored, and remembered only once that write is acknowledged |
| TokenRunner.SyncRunner.Loop | cmd/difmsync/main.go:611-633 | the token reported as held follows the rotations that were persisted |
| TokenRunner.SyncRunner.Once | cmd/difmsync/runloop.go:43-124 | one round of the runner, for every interleaving with other writers |
| TokenRunner.SyncRunner.RunLoop | cmd/difmsync/runloop.go:41-125 | any number of rounds |
| TokenRunner.LoopStartsWithTheStoredToken | cmd/difmsync/runloop.go:43-83 | the loop is entered only with a non-empty token just read from the store |
| TokenRounds.LoopIsEnteredExactlyWhen | cmd/difmsync/runloop.go:43-86 | the loop is entered if and only if the store answers and holds a token, or consent was given and it then holds one; it is entered with that token |
| TokenRounds.RoundEndsExactlyAs | cmd/difmsync/runloop.go:86-124 | a token counts as refused exactly when the entered loop ended revoked, the runner goes round again exactly when then the clear is acknowledged, and the stored token goes exactly when the clear lands and it is the held one |
| TokenRounds.RenewalWritesOnlyNews | pkg/spotify/spotify.go:183-202 | a renewal presents the new token or keeps the old, and writes only one other than the held |
| TokenRounds.NewestIssuedIsStored | pkg/spotify/spotify.go:183-202 | while nobody else writes and every write is acknowledged, the stored, presented and held token is the newest Spotify issued |
| TokenRunner.ErasedTokenIsNotUsedAgain | cmd/difmsync/runloop.go:107-123 | over every run, no round after a clear enters the loop with the erased token unless somebody else wrote it or Spotify issued it again |
| TokenRunner.HeldIsPresentedUnless | pkg/spotify/spotify.go:183-202 | the held token is the presented one unless the last renewal's token was not stored |
| TokenRunner.ClearErasesOnlyTheRefusedToken | cmd/difmsync/runloop.go:93-110 | a clear erases only the held token and leaves any other alone; it is the refused one if and only if the last renewal was stored |
| TokenRunner.UnstoredRenewalErasesTheWrongToken | cmd/difmsync/runloop.go:93-110 | a concrete run in which the erased token is not the refused one |
| TokenRunner.RunnerCannotSpin | cmd/difmsync/runloop.go:111-121 | over every run, loops started are at most one more than the token writes made by others, plus the engine's own whose reply was lost; without lost replies, at most one more than the writes made by others |
| TokenRunner.RetriesWithNothingClearedExactlyWhen | cmd/difmsync/runloop.go:111-121 | with nobody else writing, a refused token leads to another round with nothing cleared if and only if the clear is acknowledged and the reply to the engine's last write was lost |
| TokenRunner.LostReplyCostsALoop | cmd/difmsync/runloop.go:116-117 | a concrete run of two loops in which nobody but the engine wrote |
| RunLog.RunTable.StartRun | internal/store/sqlite/ops.go:368-378 | a new open row under a fresh id |
| RunLog.RunTable.FinishRun | internal/store/sqlite/ops.go:383-408 | closes exactly the row of that id |
| RunLog.RunTable.PruneRuns | internal/store/sqlite/gen/sync_runs.sql.go:93-104 | what the DELETE leaves |
| RunLog.ListingMeans | internal/store/sqlite/gen/sync_runs.sql.go:44-51 | the account's rows, all of them and no others, newest first |
| RunLog.ComputeHealth | internal/status/status.go:386-414 | the first-match scan computes the verdict |
| RunLog.HealthMeans | internal/status/status.go:386-414 | healthy exactly when the newest clean pass of the window is no older than allowed |
| RunLog.ConsecutiveFailures | internal/status/status.go:428-441 | the loop computes the specified count |
| RunLog.FailuresMeans | internal/status/status.go:416-427 | that count is the number of finished, real, errored runs newer than the accepted row, or in the window when there is none |
| StatusReport.HealthyExactlyWhen | internal/status/status.go:191-240 | healthy if and only if consent was given and, of the account's twenty newest runs, the newest real, finished, readable run without an error is recent enough |
| StatusReport.ReportSays | internal/status/status.go:191-240 | the verdict, its reason, the accepted run, the number of real errored runs before it, and the runs listed, five by default |
| StatusReport.NewestRunIsDescribed | internal/status/status.go:457-480 | the reason names the newest run by its recorded kind before anything else |
| RunLog.PruneDeletesExactly | internal/store/sqlite/gen/sync_runs.sql.go:93-104 | exactly the account's finished rows older than the cutoff and outside its newest go: no unfinished and no other account's row |
| RunLog.WindowSurvives | internal/syncer/loop.go:32 | the newest rows the verdict reads survive a prune with that floor |
| RunLog.PruneIsInvisibleToHealth | internal/status/status.go:191-236 | pruning with a floor of 20 changes neither verdict, reason, last success nor failure count, for any table, time, cutoff and requested limits; nor does the limit |
| RunLog.SmallerFloorIsVisible | internal/syncer/loop.go:32 | every smaller floor can turn a healthy verdict unhealthy |
| FullDate.SpellingOrderIsDayOrder | internal/syncer/backup.go:14-17 | for validated dates, string order is the order of the days counted one by one |
| FullDate.FormattedDayParses | internal/syncer/backup.go:122-126 | the day written into a name is the day read back |
| FullDate.ParsedDayFormats | internal/syncer/backup.go:37-47 | a string that parses is the spelling of a date of the calendar |
| FullDate.YearsAreGregorian | internal/syncer/backup.go:14-17 | the days counted before each year are the Gregorian calendar's |
| FullDate.EveryDayHasADate | internal/syncer/backup.go:14-17 | every day of the years 0 to 9999 has a date |
| Snapshots.SnapshotNamesAre | internal/syncer/backup.go:37-47 | a name is a snapshot's exactly when it is the prefix, a date and the suffix |
| Snapshots.DaysAreReadBack | internal/syncer/backup.go:37-47 | the name a run writes is one a prune recognizes |
| Snapshots.NameOrderIsDayOrder | internal/syncer/backup.go:170 | sorting validated names sorts their dates |
| Snapshots.Backups.Prune | internal/syncer/backup.go:151-178 | what is deleted, for every point at which a delete fails |
| Snapshots.Backups.Run | internal/syncer/backup.go:121-145 | the attempt, its memory, the new file and the prune after it, for every failure |
| Snapshots.LastBackupAt | internal/status/status.go:248-272 | collects, sorts and takes the last date; blank without a readable directory |
| SnapshotPruning.VictimsAreTheOldest | internal/syncer/backup.go:151-178 | exactly the snapshots with Keep or more newer ones are to be deleted |
| SnapshotPruning.PruneKeepsTheNewest | internal/syncer/backup.go:151-178 | other files and the newest Keep snapshots stay even when a delete fails part-way; a completed prune leaves no other snapshot |
| SnapshotPruning.PruneLeavesKeep | internal/syncer/backup.go:151-178 | a completed prune leaves the smaller of Keep and the number there was, or all for Keep of zero or less |
| SnapshotPruning.LastBackupMeans | internal/status/status.go:248-272 | the reported date is the latest snapshot's day, blank exactly when there is none |
| SnapshotPruning.PruneIsInvisibleToStatus | internal/status/status.go:248-272 | no prune, complete or cut short, changes the reported last backup |
| SnapshotPruning.OwnPruneSparesTheNewSnapshotExactlyWhen | internal/syncer/backup.go:136-144 | the new snapshot survives the prune that follows it, complete or cut short, if and only if fewer than Keep others are dated later or the deletes stop before its rank |
| SnapshotPruning.NewSnapshotCanGoAtOnce | internal/syncer/backup.go:136-144 | a concrete directory in which a run writes a snapshot and deletes it |
| SnapshotPruning.RunMeans | internal/syncer/backup.go:121-145 | when a run does nothing, fails or writes, that only a written snapshot touches the directory, and that every run but one that does nothing is remembered |
| SnapshotPruning.DeletedExactlyWhen | internal/syncer/backup.go:170-176 | a snapshot is deleted if and only if its rank by date is at least Keep and the deletes get that far |
| SnapshotPruning.OneAttemptADay | internal/syncer/backup.go:110-130 | between two starts of the daemon no day sees two snapshots or failures, whatever fails, as long as the clock's day does not go back |

## Left out

- HTTP, JSON decoding, timeouts, headers: a response is an arbitrary answer or failure.
- The SQLite engine, migrations and pragmas: tables are maps or sequences with their unique keys, transactions are atomic.
- Command-line flags, logging, printing, the consent server and the OAuth exchange.
- `Parse`, `splitArtists`, `classifyVersion`: they depend on regular-expression matching; the matcher starts from parsed tracks.
- Unicode tables: lower-casing and character classes are parameters of the normalizer, with the laws the proofs use written out in `TextNormalize.Lawful`; `TextNormalize.AsciiIsLawful` shows that they can be met.
- Floating-point rounding in scores and thresholds.
- The score's rationale text, apart from the remixer an unconfirmed remix is reported with; track artist and title in ledger and queue rows; the details URL and the reason a non-track is skipped.
- The search itself, its ISRC shortcut and the stable sort of its candidates: a search answers with any list, best first.
- The run rows inside a pass: the pass's world does not hold the run log, which has a model of its own; `classify` and `nextDelay`.
- Records with id 0 in the theorems about passes and runs (the walk has them, in `IdlessLikes.dfy`), and votes withdrawn after being seen.
- A backup taken while a pass is under way.
- A resync overlapping a pass, which the pass's unconditional watermark write can undo.
- Several accounts or playlists sharing one database, except in the run log.
- Time as text: run rows and watermarks compare as numbers.
- Difm.ReverseBySwaps: works on a local list, as the source's slice is local; aliasing with other slices is not represented.
- Snapshots.Ascending: stands for the library sort; it is proved to sort and to keep the names.
- Snapshots.Backups.Run: the staging directory a killed snapshot leaves behind is not a snapshot and is not represented.
