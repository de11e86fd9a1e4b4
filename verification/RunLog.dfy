/** The sync_runs table, the health verdict read from it, and the pruning that
    must not change it. */
module RunLog {
  import opened Common

  /** The text of finished_at, once there is one. */
  datatype Stamp = At(t: Time) | Unparseable | Blank

  datatype ErrorKind = NoKind | DiFMUnauthorized | GrantRevoked | RateLimited | Incomplete | OtherError

  /** One row; finished is None for NULL. */
  datatype SyncRun = SyncRun(
    id: int, account: int, started: Time, finished: Option<Stamp>, dry: bool, failed: bool, kind: ErrorKind)

  const HEALTH_SCAN_LIMIT := 20
  const KEEP_RUNS := 20
  const DEFAULT_RUN_LIMIT := 5

  // ---------- the queries ----------

  /** ORDER BY started_at DESC, id DESC. */
  predicate Before(a: SyncRun, b: SyncRun) {
    a.started > b.started || (a.started == b.started && a.id > b.id)
  }

  function Insert(r: SyncRun, list: seq<SyncRun>): seq<SyncRun> {
    if list == [] || Before(r, list[0]) then [r] + list else [list[0]] + Insert(r, list[1..])
  }

  /** The account's rows, newest first. */
  function Listing(rows: seq<SyncRun>, account: int): seq<SyncRun> {
    if rows == [] then []
    else if Last(rows).account == account then Insert(Last(rows), Listing(Front(rows), account))
    else Listing(Front(rows), account)
  }

  /** LIMIT; a negative one is none. */
  function Limit(list: seq<SyncRun>, limit: int): seq<SyncRun> {
    if 0 <= limit < |list| then list[..limit] else list
  }

  function ListRuns(rows: seq<SyncRun>, account: int, limit: int): seq<SyncRun> {
    Limit(Listing(rows, account), limit)
  }

  predicate Doomed(r: SyncRun, account: int, cutoff: Time, recent: seq<SyncRun>) {
    r.account == account && r.finished.Some? && r.started < cutoff && forall k :: k in recent ==> k.id != r.id
  }

  function Spared(rows: seq<SyncRun>, account: int, cutoff: Time, recent: seq<SyncRun>): seq<SyncRun> {
    if rows == [] then []
    else
      Spared(Front(rows), account, cutoff, recent)
      + if Doomed(Last(rows), account, cutoff, recent) then [] else [Last(rows)]
  }

  function Pruned(rows: seq<SyncRun>, account: int, cutoff: Time, keep: int): seq<SyncRun> {
    Spared(rows, account, cutoff, ListRuns(rows, account, keep))
  }

  predicate KeyedById(rows: seq<SyncRun>) {
    forall i, j :: 0 <= i < j < |rows| ==> rows[i].id != rows[j].id
  }

  class RunTable {
    var rows: seq<SyncRun>
    var nextId: int

    predicate Valid()
      reads this
    {
      KeyedById(rows) && forall r :: r in rows ==> r.id < nextId
    }

    method StartRun(account: int, now: Time, dry: bool) returns (id: int)
      requires Valid()
      modifies this
      ensures Valid() && rows == old(rows) + [SyncRun(id, account, now, None, dry, false, NoKind)]
      ensures forall r :: r in old(rows) ==> r.id != id
    {
      id := nextId;
      rows := rows + [SyncRun(id, account, now, None, dry, false, NoKind)];
      nextId := nextId + 1;
    }

    method FinishRun(id: int, now: Time, failed: bool, kind: ErrorKind)
      requires Valid()
      modifies this`rows
      ensures Valid() && |rows| == |old(rows)|
      ensures forall i :: 0 <= i < |rows| ==>
                rows[i] == if old(rows)[i].id == id
                           then old(rows)[i].(finished := Some(At(now)), failed := failed, kind := kind)
                           else old(rows)[i]
    {
      for i := 0 to |rows|
        invariant |rows| == |old(rows)|
        invariant forall j :: 0 <= j < i ==>
                    rows[j] == if old(rows)[j].id == id
                               then old(rows)[j].(finished := Some(At(now)), failed := failed, kind := kind)
                               else old(rows)[j]
        invariant forall j :: i <= j < |rows| ==> rows[j] == old(rows)[j]
      {
        if rows[i].id == id {
          rows := rows[i := rows[i].(finished := Some(At(now)), failed := failed, kind := kind)];
        }
      }
      forall r | r in rows
        ensures r.id < nextId
      {
        var i :| 0 <= i < |rows| && rows[i] == r;
        assert old(rows)[i] in old(rows);
      }
    }

    method PruneRuns(account: int, cutoff: Time, keep: int) returns (deleted: int)
      requires Valid()
      modifies this`rows
      ensures Valid() && rows == Pruned(old(rows), account, cutoff, keep)
      ensures deleted == |old(rows)| - |rows|
    {
      var recent := ListRuns(rows, account, keep);
      var kept := [];
      for i := 0 to |rows|
        invariant kept == Spared(rows[..i], account, cutoff, recent)
      {
        assert Front(rows[..i + 1]) == rows[..i] && Last(rows[..i + 1]) == rows[i];
        if !Doomed(rows[i], account, cutoff, recent) {
          kept := kept + [rows[i]];
        }
      }
      assert rows[..|rows|] == rows;
      SparedIsKeyed(rows, account, cutoff, recent);
      deleted := |rows| - |kept|;
      rows := kept;
    }
  }

  lemma {:induction false} SparedMember(
      rows: seq<SyncRun>, account: int, cutoff: Time, recent: seq<SyncRun>, r: SyncRun)
    ensures r in Spared(rows, account, cutoff, recent) <==> r in rows && !Doomed(r, account, cutoff, recent)
  {
    if rows != [] {
      assert rows == Front(rows) + [Last(rows)];
      SparedMember(Front(rows), account, cutoff, recent, r);
    }
  }

  lemma SparedMembers(rows: seq<SyncRun>, account: int, cutoff: Time, recent: seq<SyncRun>)
    ensures forall r :: r in Spared(rows, account, cutoff, recent) <==> r in rows && !Doomed(r, account, cutoff, recent)
  {
    forall r
      ensures r in Spared(rows, account, cutoff, recent) <==> r in rows && !Doomed(r, account, cutoff, recent)
    {
      SparedMember(rows, account, cutoff, recent, r);
    }
  }

  lemma KeyedWithLast(rows: seq<SyncRun>, last: SyncRun)
    requires KeyedById(rows) && forall r :: r in rows ==> r.id != last.id
    ensures KeyedById(rows + [last])
  {
    var longer := rows + [last];
    forall i, j | 0 <= i < j < |longer|
      ensures longer[i].id != longer[j].id
    {
      assert longer[i] == rows[i] && rows[i] in rows;
    }
  }

  lemma KeyedFront(rows: seq<SyncRun>)
    requires KeyedById(rows) && rows != []
    ensures KeyedById(Front(rows)) && forall r :: r in Front(rows) ==> r.id != Last(rows).id
  {
    forall r | r in Front(rows)
      ensures r.id != Last(rows).id
    {
      var i :| 0 <= i < |Front(rows)| && Front(rows)[i] == r;
      assert rows[i] == r;
    }
  }

  lemma {:induction false} SparedKeepsKeys(rows: seq<SyncRun>, account: int, cutoff: Time, recent: seq<SyncRun>)
    requires KeyedById(rows)
    ensures KeyedById(Spared(rows, account, cutoff, recent))
  {
    if rows != [] {
      KeyedFront(rows);
      SparedKeepsKeys(Front(rows), account, cutoff, recent);
      SparedMembers(Front(rows), account, cutoff, recent);
      KeyedWithLast(Spared(Front(rows), account, cutoff, recent), Last(rows));
    }
  }

  lemma SparedIsKeyed(rows: seq<SyncRun>, account: int, cutoff: Time, recent: seq<SyncRun>)
    requires KeyedById(rows)
    ensures KeyedById(Spared(rows, account, cutoff, recent))
    ensures forall r :: r in Spared(rows, account, cutoff, recent) <==> r in rows && !Doomed(r, account, cutoff, recent)
  {
    SparedKeepsKeys(rows, account, cutoff, recent);
    SparedMembers(rows, account, cutoff, recent);
  }

  // ---------- the verdict ----------

  predicate Open(r: SyncRun) {
    r.finished.None? || r.finished.value.Blank?
  }

  /** A pass that counts as success: real, finished, without error, and with a
      readable time. */
  predicate CleanPass(r: SyncRun) {
    !r.dry && !Open(r) && !r.failed && r.finished.value.At?
  }

  predicate Failure(r: SyncRun) {
    !r.dry && !Open(r) && r.failed
  }

  datatype Why =
    SaysRevoked | SaysUnauthorized | SaysRateLimited | SaysErrored | SaysInFlight | SaysDryRun | SaysUnreadable

  function Describe(r: SyncRun): Why {
    if r.kind.GrantRevoked? then SaysRevoked
    else if r.kind.DiFMUnauthorized? then SaysUnauthorized
    else if r.kind.RateLimited? then SaysRateLimited
    else if r.failed then SaysErrored
    else if Open(r) then SaysInFlight
    else if r.dry then SaysDryRun
    else SaysUnreadable
  }

  datatype Reason = Fine | AwaitingConsent | NoRuns | Stale(age: Time) | NoneClean(seen: nat, newest: Why)

  datatype Verdict = Verdict(healthy: bool, reason: Reason, accepted: Option<SyncRun>)

  function HealthFrom(window: seq<SyncRun>, i: nat, maxAge: Time, now: Time): Verdict
    requires i <= |window| && window != []
    decreases |window| - i
  {
    if i == |window| then Verdict(false, NoneClean(|window|, Describe(window[0])), None)
    else if CleanPass(window[i]) then
      var age := now - window[i].finished.value.t;
      Verdict(age <= maxAge, if age > maxAge then Stale(age) else Fine, Some(window[i]))
    else HealthFrom(window, i + 1, maxAge, now)
  }

  function Health(window: seq<SyncRun>, maxAge: Time, now: Time): Verdict {
    if window == [] then Verdict(false, NoRuns, None) else HealthFrom(window, 0, maxAge, now)
  }

  method ComputeHealth(runs: seq<SyncRun>, maxAge: Time, now: Time) returns (v: Verdict)
    ensures v == Health(runs, maxAge, now)
  {
    if |runs| == 0 {
      return Verdict(false, NoRuns, None);
    }
    for i := 0 to |runs|
      invariant Health(runs, maxAge, now) == HealthFrom(runs, i, maxAge, now)
    {
      var run := runs[i];
      if run.dry || Open(run) || run.failed || !run.finished.value.At? {
        continue;
      }
      var age := now - run.finished.value.t;
      return Verdict(age <= maxAge, if age > maxAge then Stale(age) else Fine, Some(run));
    }
    v := Verdict(false, NoneClean(|runs|, Describe(runs[0])), None);
  }

  /** Failures before the accepted row, or in the whole window without one. */
  function Failures(window: seq<SyncRun>, accepted: Option<SyncRun>): nat {
    if window == [] || (accepted.Some? && window[0].id == accepted.value.id) then 0
    else (if Failure(window[0]) then 1 else 0) + Failures(window[1..], accepted)
  }

  method ConsecutiveFailures(runs: seq<SyncRun>, accepted: Option<SyncRun>) returns (n: nat)
    ensures n == Failures(runs, accepted)
  {
    n := 0;
    for i := 0 to |runs|
      invariant Failures(runs, accepted) == n + Failures(runs[i..], accepted)
    {
      assert runs[i..][1..] == runs[i + 1..];
      if accepted.Some? && runs[i].id == accepted.value.id {
        return;
      }
      if runs[i].dry || Open(runs[i]) || !runs[i].failed {
        continue;
      }
      n := n + 1;
    }
  }

  /** The part of a status report that concerns health, and the listed rows. */
  datatype Report = Report(verdict: Verdict, failures: nat, runs: seq<SyncRun>)

  function Build(rows: seq<SyncRun>, account: int, authorized: bool, maxAge: Time, now: Time, limit: int): Report {
    var runLimit := if limit <= 0 then DEFAULT_RUN_LIMIT else limit;
    var runs := ListRuns(rows, account, if runLimit > HEALTH_SCAN_LIMIT then runLimit else HEALTH_SCAN_LIMIT);
    var window := Limit(runs, HEALTH_SCAN_LIMIT);
    var health := Health(window, maxAge, now);
    Report(if authorized then health else Verdict(false, AwaitingConsent, health.accepted),
           Failures(window, health.accepted), Limit(runs, runLimit))
  }

  // ---------- what the verdict means ----------

  predicate FirstClean(window: seq<SyncRun>, i: nat) {
    i < |window| && CleanPass(window[i]) && forall j :: 0 <= j < i ==> !CleanPass(window[j])
  }

  predicate AcceptedAt(window: seq<SyncRun>, k: nat, v: Verdict, maxAge: Time, now: Time) {
    && FirstClean(window, k) && v.accepted == Some(window[k])
    && (v.healthy <==> now - window[k].finished.value.t <= maxAge)
  }

  lemma {:induction false} HealthFromMeans(window: seq<SyncRun>, i: nat, maxAge: Time, now: Time)
    requires i <= |window| && window != [] && forall j :: 0 <= j < i ==> !CleanPass(window[j])
    ensures var v := HealthFrom(window, i, maxAge, now);
            && (v.accepted.Some? <==> exists k :: 0 <= k < |window| && CleanPass(window[k]))
            && (v.accepted.Some? ==> exists k: nat :: AcceptedAt(window, k, v, maxAge, now))
            && (v.healthy ==> v.accepted.Some?)
    decreases |window| - i
  {
    if i < |window| {
      if CleanPass(window[i]) {
        assert AcceptedAt(window, i, HealthFrom(window, i, maxAge, now), maxAge, now);
      } else {
        HealthFromMeans(window, i + 1, maxAge, now);
      }
    }
  }

  /** Healthy means: the newest clean pass in the window exists and is no older
      than maxAge. Failures and open runs in front of it do not matter. */
  lemma HealthMeans(window: seq<SyncRun>, maxAge: Time, now: Time)
    ensures Health(window, maxAge, now).healthy <==>
            exists k: nat :: FirstClean(window, k) && now - window[k].finished.value.t <= maxAge
    ensures Health(window, maxAge, now).accepted.Some? <==> exists k :: 0 <= k < |window| && CleanPass(window[k])
  {
    if window != [] {
      HealthFromMeans(window, 0, maxAge, now);
      var v := Health(window, maxAge, now);
      if v.accepted.Some? {
        var k: nat :| AcceptedAt(window, k, v, maxAge, now);
        assert forall j: nat :: FirstClean(window, j) ==> j == k;
      }
    }
  }

  /** The places of the failed real passes in a stretch of the window. */
  function FailuresIn(window: seq<SyncRun>, i: nat, k: nat): set<int>
    requires k <= |window|
  {
    set j | i <= j < k && Failure(window[j])
  }

  /** The failures reported are those in front of the accepted row, or all in
      the window when none was accepted. */
  lemma FailuresMeans(window: seq<SyncRun>, accepted: Option<SyncRun>, k: nat)
    requires k <= |window| && (k < |window| ==> accepted.Some? && window[k].id == accepted.value.id)
    requires forall j :: 0 <= j < k ==> accepted.None? || window[j].id != accepted.value.id
    ensures Failures(window, accepted) == |FailuresIn(window, 0, k)|
  {
    FailuresFrom(window, accepted, 0, k);
    assert window[0..] == window;
  }

  lemma FailuresGrow(window: seq<SyncRun>, i: nat, k: nat)
    requires i < k <= |window|
    ensures |FailuresIn(window, i, k)| == |FailuresIn(window, i + 1, k)| + if Failure(window[i]) then 1 else 0
  {
    var rest := FailuresIn(window, i + 1, k);
    assert FailuresIn(window, i, k) == if Failure(window[i]) then rest + {i} else rest;
  }

  lemma {:induction false} FailuresFrom(window: seq<SyncRun>, accepted: Option<SyncRun>, i: nat, k: nat)
    requires i <= k <= |window| && (k < |window| ==> accepted.Some? && window[k].id == accepted.value.id)
    requires forall j :: i <= j < k ==> accepted.None? || window[j].id != accepted.value.id
    ensures Failures(window[i..], accepted) == |FailuresIn(window, i, k)|
    decreases k - i
  {
    if i < k {
      FailuresFrom(window, accepted, i + 1, k);
      assert window[i..][1..] == window[i + 1..];
      FailuresGrow(window, i, k);
    } else {
      assert FailuresIn(window, i, k) == {};
    }
  }

  // ---------- sorting and pruning ----------

  /** Newest first, and of runs started at one time the later one first. */
  predicate Sorted(list: seq<SyncRun>) {
    forall i, j :: 0 <= i < j < |list| ==>
      list[i].started > list[j].started || (list[i].started == list[j].started && list[i].id > list[j].id)
  }

  lemma {:induction false} InsertSorts(r: SyncRun, list: seq<SyncRun>)
    requires Sorted(list) && forall q :: q in list ==> q.id != r.id
    ensures Sorted(Insert(r, list))
    ensures forall q :: q in Insert(r, list) <==> q == r || q in list
  {
    if list != [] && !Before(r, list[0]) {
      InsertSorts(r, list[1..]);
      assert list == [list[0]] + list[1..];
      var rest := Insert(r, list[1..]);
      forall j | 0 <= j < |rest|
        ensures Before(list[0], rest[j])
      {
        assert rest[j] in rest;
      }
    }
  }

  /** The listing holds exactly the account's rows, newest first. */
  lemma {:induction false} ListingMeans(rows: seq<SyncRun>, account: int)
    requires KeyedById(rows)
    ensures Sorted(Listing(rows, account))
    ensures forall r :: r in Listing(rows, account) <==> r in rows && r.account == account
  {
    if rows != [] {
      assert rows == Front(rows) + [Last(rows)];
      ListingMeans(Front(rows), account);
      if Last(rows).account == account {
        InsertSorts(Last(rows), Listing(Front(rows), account));
      }
    }
  }

  /** A sorted list is determined by its elements. */
  lemma {:induction false} SortedIsUnique(a: seq<SyncRun>, b: seq<SyncRun>)
    requires Sorted(a) && Sorted(b) && forall r :: r in a <==> r in b
    ensures a == b
  {
    assert b != [] ==> b[0] in a;
    if a != [] {
      assert a[0] in b;
      assert a[0] == b[0];
      forall r
        ensures r in a[1..] <==> r in b[1..]
      {
        assert r in a[1..] ==> r in b && r != b[0];
        assert r in b[1..] ==> r in a && r != a[0];
      }
      SortedIsUnique(a[1..], b[1..]);
    }
  }

  lemma SortedFront(list: seq<SyncRun>)
    requires Sorted(list) && list != []
    ensures Sorted(Front(list)) && forall r :: r in Front(list) ==> Before(r, Last(list))
  {
    forall r | r in Front(list)
      ensures Before(r, Last(list))
    {
      var i :| 0 <= i < |Front(list)| && Front(list)[i] == r;
      assert list[i] == r;
    }
  }

  lemma {:induction false} SparedKeepsOrder(list: seq<SyncRun>, account: int, cutoff: Time, recent: seq<SyncRun>)
    requires Sorted(list)
    ensures Sorted(Spared(list, account, cutoff, recent))
  {
    if list != [] {
      SortedFront(list);
      SparedKeepsOrder(Front(list), account, cutoff, recent);
      SparedMembers(Front(list), account, cutoff, recent);
      SortedWithLast(Spared(Front(list), account, cutoff, recent), Last(list));
    }
  }

  lemma SparedStaysSorted(list: seq<SyncRun>, account: int, cutoff: Time, recent: seq<SyncRun>)
    requires Sorted(list)
    ensures Sorted(Spared(list, account, cutoff, recent))
    ensures forall r :: r in Spared(list, account, cutoff, recent) <==> r in list && !Doomed(r, account, cutoff, recent)
  {
    SparedKeepsOrder(list, account, cutoff, recent);
    SparedMembers(list, account, cutoff, recent);
  }

  lemma SortedWithLast(list: seq<SyncRun>, last: SyncRun)
    requires Sorted(list) && forall q :: q in list ==> Before(q, last)
    ensures Sorted(list + [last])
  {
    var longer := list + [last];
    forall i, j | 0 <= i < j < |longer|
      ensures Before(longer[i], longer[j])
    {
      assert longer[i] == list[i] && list[i] in list;
    }
  }

  /** Sorting and pruning commute. */
  lemma ListingOfPruned(rows: seq<SyncRun>, listed: int, account: int, cutoff: Time, recent: seq<SyncRun>)
    requires KeyedById(rows)
    ensures Listing(Spared(rows, account, cutoff, recent), listed) ==
            Spared(Listing(rows, listed), account, cutoff, recent)
  {
    SparedIsKeyed(rows, account, cutoff, recent);
    ListingMeans(rows, listed);
    ListingMeans(Spared(rows, account, cutoff, recent), listed);
    SparedStaysSorted(Listing(rows, listed), account, cutoff, recent);
    SortedIsUnique(Listing(Spared(rows, account, cutoff, recent), listed),
                   Spared(Listing(rows, listed), account, cutoff, recent));
  }

  lemma {:induction false} NoneDoomed(list: seq<SyncRun>, account: int, cutoff: Time, recent: seq<SyncRun>)
    requires forall r :: r in list ==> !Doomed(r, account, cutoff, recent)
    ensures Spared(list, account, cutoff, recent) == list
  {
    if list != [] {
      assert list == Front(list) + [Last(list)];
      NoneDoomed(Front(list), account, cutoff, recent);
    }
  }

  lemma {:induction false} SparedPrefix(list: seq<SyncRun>, n: nat, account: int, cutoff: Time, recent: seq<SyncRun>)
    requires n <= |list| && forall i :: 0 <= i < n ==> !Doomed(list[i], account, cutoff, recent)
    ensures n <= |Spared(list, account, cutoff, recent)| && Spared(list, account, cutoff, recent)[..n] == list[..n]
  {
    if |list| > n {
      SparedPrefix(Front(list), n, account, cutoff, recent);
      assert Front(list)[..n] == list[..n];
    } else {
      NoneDoomed(list, account, cutoff, recent);
    }
  }

  lemma {:induction false} SparedIsNoLonger(list: seq<SyncRun>, account: int, cutoff: Time, recent: seq<SyncRun>)
    ensures |Spared(list, account, cutoff, recent)| <= |list|
  {
    if list != [] {
      SparedIsNoLonger(Front(list), account, cutoff, recent);
    }
  }

  /** The health window survives a prune that keeps at least as many rows. */
  lemma WindowSurvives(rows: seq<SyncRun>, listed: int, account: int, cutoff: Time, keep: int)
    requires KeyedById(rows) && (keep >= HEALTH_SCAN_LIMIT || keep < 0)
    ensures ListRuns(Pruned(rows, account, cutoff, keep), listed, HEALTH_SCAN_LIMIT)
            == ListRuns(rows, listed, HEALTH_SCAN_LIMIT)
  {
    var recent := ListRuns(rows, account, keep);
    var all := Listing(rows, listed);
    ListingOfPruned(rows, listed, account, cutoff, recent);
    ListingMeans(rows, listed);
    var n := if |all| < HEALTH_SCAN_LIMIT then |all| else HEALTH_SCAN_LIMIT;
    forall i | 0 <= i < n
      ensures !Doomed(all[i], account, cutoff, recent)
    {
      assert all[i] in all;
      if listed == account {
        assert recent[i] == all[i] && recent[i] in recent;
      }
    }
    SparedPrefix(all, n, account, cutoff, recent);
    SparedIsNoLonger(all, account, cutoff, recent);
  }

  lemma WindowOfBuild(rows: seq<SyncRun>, account: int, limit: int)
    ensures var runLimit := if limit <= 0 then DEFAULT_RUN_LIMIT else limit;
            var runs := ListRuns(rows, account, if runLimit > HEALTH_SCAN_LIMIT then runLimit else HEALTH_SCAN_LIMIT);
            Limit(runs, HEALTH_SCAN_LIMIT) == ListRuns(rows, account, HEALTH_SCAN_LIMIT)
  {
  }

  /** Pruning with the engine's floor is invisible to the verdict, its reason,
      the accepted run and the failure count, for every table, cutoff, account,
      time and pair of requested limits; those do not depend on the limit. */
  lemma PruneIsInvisibleToHealth(rows: seq<SyncRun>, listed: int, account: int, cutoff: Time, authorized: bool,
                                 maxAge: Time, now: Time, limit: int, limit': int)
    requires KeyedById(rows)
    ensures var before := Build(rows, listed, authorized, maxAge, now, limit);
            var after := Build(Pruned(rows, account, cutoff, KEEP_RUNS), listed, authorized, maxAge, now, limit');
            before.verdict == after.verdict && before.failures == after.failures
  {
    WindowOfBuild(rows, listed, limit);
    WindowOfBuild(Pruned(rows, account, cutoff, KEEP_RUNS), listed, limit');
    WindowSurvives(rows, listed, account, cutoff, KEEP_RUNS);
  }

  /** A prune deletes exactly the account's finished rows older than the cutoff
      that are not among its newest: no unfinished row and no other account's
      row goes. */
  lemma PruneDeletesExactly(rows: seq<SyncRun>, account: int, cutoff: Time, keep: int, r: SyncRun)
    requires KeyedById(rows) && r in rows
    ensures r !in Pruned(rows, account, cutoff, keep) <==>
            r.account == account && r.finished.Some? && r.started < cutoff && r !in ListRuns(rows, account, keep)
  {
    var recent := ListRuns(rows, account, keep);
    SparedIsKeyed(rows, account, cutoff, recent);
    ListingMeans(rows, account);
    forall k | k in recent && k.id == r.id
      ensures k == r
    {
      assert k in Listing(rows, account);
    }
  }

  // ---------- the floor is needed ----------

  /** A clean old pass, then n passes that were never closed. */
  function OldSuccess(n: nat): seq<SyncRun> {
    if n == 0 then [SyncRun(0, 0, 0, Some(At(0)), false, false, NoKind)]
    else OldSuccess(n - 1) + [SyncRun(n, 0, n, None, false, false, NoKind)]
  }

  lemma {:induction false} OldSuccessRows(n: nat)
    ensures |OldSuccess(n)| == n + 1 && KeyedById(OldSuccess(n))
    ensures forall i :: 0 <= i <= n ==>
              OldSuccess(n)[i].id == i && OldSuccess(n)[i].started == i && OldSuccess(n)[i].account == 0
    ensures forall i :: 1 <= i <= n ==> OldSuccess(n)[i].finished.None?
    ensures OldSuccess(n)[0] == SyncRun(0, 0, 0, Some(At(0)), false, false, NoKind)
  {
    if n > 0 {
      OldSuccessRows(n - 1);
    }
  }

  lemma {:induction false} OldSuccessListed(n: nat)
    ensures |OldSuccess(n)| == n + 1
    ensures Listing(OldSuccess(n), 0) == Reversed(OldSuccess(n))
  {
    OldSuccessRows(n);
    if n > 0 {
      OldSuccessRows(n - 1);
      OldSuccessListed(n - 1);
      assert Front(OldSuccess(n)) == OldSuccess(n - 1);
      var list := Listing(OldSuccess(n - 1), 0);
      assert list[0] == OldSuccess(n - 1)[n - 1];
      assert Insert(Last(OldSuccess(n)), list) == [Last(OldSuccess(n))] + list;
    } else {
      assert Front(OldSuccess(0)) == [];
    }
  }

  /** Any smaller floor can turn a healthy verdict unhealthy: the floor equals
      the scan window because it must. */
  lemma SmallerFloorIsVisible(keep: int)
    requires 0 <= keep < HEALTH_SCAN_LIMIT
    ensures exists rows, cutoff :: KeyedById(rows)
              && Build(rows, 0, true, 0, 0, 0).verdict.healthy
              && !Build(Pruned(rows, 0, cutoff, keep), 0, true, 0, 0, 0).verdict.healthy
  {
    OldSuccessRows(keep);
    OldSuccessListed(keep);
    OldSuccessIsHealthy(keep);
    OldSuccessPruned(keep);
  }

  lemma OldSuccessIsHealthy(keep: nat)
    requires keep < HEALTH_SCAN_LIMIT
    ensures Build(OldSuccess(keep), 0, true, 0, 0, 0).verdict.healthy
  {
    var rows := OldSuccess(keep);
    OldSuccessRows(keep);
    OldSuccessListed(keep);
    WindowOfBuild(rows, 0, 0);
    var window := ListRuns(rows, 0, HEALTH_SCAN_LIMIT);
    assert window == Reversed(rows);
    assert FirstClean(window, keep);
    HealthMeans(window, 0, 0);
  }

  lemma OldSuccessPruned(keep: nat)
    requires keep < HEALTH_SCAN_LIMIT
    ensures !Build(Pruned(OldSuccess(keep), 0, 1, keep), 0, true, 0, 0, 0).verdict.healthy
  {
    var rows := OldSuccess(keep);
    var pruned, recent := Pruned(rows, 0, 1, keep), ListRuns(rows, 0, keep);
    OldSuccessRows(keep);
    OldSuccessListed(keep);
    assert recent == Reversed(rows)[..keep];
    assert Doomed(rows[0], 0, 1, recent);
    SparedIsKeyed(rows, 0, 1, recent);
    ListingMeans(pruned, 0);
    WindowOfBuild(pruned, 0, 0);
    var window := ListRuns(pruned, 0, HEALTH_SCAN_LIMIT);
    forall k | 0 <= k < |window|
      ensures !CleanPass(window[k])
    {
      assert window[k] in Listing(pruned, 0);
      assert window[k] in rows && window[k] != rows[0];
    }
    HealthMeans(window, 0, 0);
  }
}
