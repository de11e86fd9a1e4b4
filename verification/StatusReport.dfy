/** What the status report says about an account's runs, field by field: when
    it is healthy, why it is not, and how many failures it counts. */
module StatusReport {
  import opened Common
  import opened RunLog

  // ---------- the rows it looks at ----------

  /** The n newest runs of the account, newest first, or all there are. */
  predicate Newest(list: seq<SyncRun>, rows: seq<SyncRun>, account: int, n: nat) {
    && Sorted(list) && |list| <= n
    && (forall r :: r in list ==> r in rows && r.account == account)
    && (forall r :: r in rows && r.account == account && r !in list ==>
          |list| == n && forall q :: q in list ==> Newer(q, r))
  }

  predicate Newer(a: SyncRun, b: SyncRun) {
    a.started > b.started || (a.started == b.started && a.id > b.id)
  }

  lemma ListedAreNewest(rows: seq<SyncRun>, account: int, n: nat)
    requires KeyedById(rows)
    ensures Newest(ListRuns(rows, account, n), rows, account, n)
  {
    ListingMeans(rows, account);
    var all, list := Listing(rows, account), ListRuns(rows, account, n);
    assert forall i :: 0 <= i < |list| ==> list[i] in list && list[i] == all[i];
    forall r | r in rows && r.account == account && r !in list
      ensures |list| == n && forall q :: q in list ==> Newer(q, r)
    {
      assert r in all;
      var j :| 0 <= j < |all| && all[j] == r;
    }
  }

  // ---------- the verdict ----------

  /** A run that shows the sync working: a real pass that finished at a readable
      time without an error. */
  predicate Succeeded(r: SyncRun) {
    !r.dry && !r.failed && r.finished.Some? && r.finished.value.At?
  }

  /** A real pass that finished with an error. */
  predicate Errored(r: SyncRun) {
    !r.dry && r.failed && r.finished.Some? && !r.finished.value.Blank?
  }

  function Age(r: SyncRun, now: Time): Time
    requires Succeeded(r)
  {
    now - r.finished.value.t
  }

  /** The k-th run of the window is its first success, or k is its length and
      there is none. */
  predicate LooksUpTo(window: seq<SyncRun>, k: nat) {
    && k <= |window| && (k < |window| ==> Succeeded(window[k]))
    && forall j :: 0 <= j < k ==> !Succeeded(window[j])
  }

  lemma {:induction false} VerdictFrom(window: seq<SyncRun>, i: nat, k: nat, maxAge: Time, now: Time)
    requires i <= k <= |window| && window != [] && LooksUpTo(window, k)
    ensures HealthFrom(window, i, maxAge, now) ==
            if k == |window| then Verdict(false, NoneClean(|window|, Describe(window[0])), None)
            else
              var age := Age(window[k], now);
              Verdict(age <= maxAge, if age <= maxAge then Fine else Stale(age), Some(window[k]))
    decreases k - i
  {
    if i < k {
      VerdictFrom(window, i + 1, k, maxAge, now);
    }
  }

  // ---------- the failures ----------

  function ErrorsBefore(window: seq<SyncRun>, k: nat): set<int>
    requires k <= |window|
  {
    set j | 0 <= j < k && Errored(window[j])
  }

  lemma IdsDifferUpTo(rows: seq<SyncRun>, account: int, n: nat, j: nat, k: nat)
    requires KeyedById(rows) && j < k < |ListRuns(rows, account, n)|
    ensures ListRuns(rows, account, n)[j].id != ListRuns(rows, account, n)[k].id
  {
    ListedAreNewest(rows, account, n);
    var list := ListRuns(rows, account, n);
    assert list[j] in rows && list[k] in rows;
    var x :| 0 <= x < |rows| && rows[x] == list[j];
    var y :| 0 <= y < |rows| && rows[y] == list[k];
  }

  lemma FailuresCounted(rows: seq<SyncRun>, account: int, n: nat, k: nat)
    requires KeyedById(rows) && LooksUpTo(ListRuns(rows, account, n), k)
    ensures var window := ListRuns(rows, account, n);
            Failures(window, if k < |window| then Some(window[k]) else None) == |ErrorsBefore(window, k)|
  {
    var window := ListRuns(rows, account, n);
    forall j | 0 <= j < k && k < |window|
      ensures window[j].id != window[k].id
    {
      IdsDifferUpTo(rows, account, n, j, k);
    }
    FailuresMeans(window, if k < |window| then Some(window[k]) else None, k);
    assert FailuresIn(window, 0, k) == ErrorsBefore(window, k);
  }

  // ---------- the report ----------

  /** What the report says, where k is the place of the newest success among
      the twenty newest runs, or their number when there is none. Without
      consent it is never healthy, and that is the reason given. */
  lemma ReportSays(rows: seq<SyncRun>, account: int, authorized: bool, maxAge: Time, now: Time, limit: int, k: nat)
    requires KeyedById(rows) && LooksUpTo(ListRuns(rows, account, 20), k)
    ensures var window, r := ListRuns(rows, account, 20), Build(rows, account, authorized, maxAge, now, limit);
            var recent := k < |window| && Age(window[k], now) <= maxAge;
            && (r.verdict.healthy <==> authorized && recent)
            && r.verdict.accepted == (if k < |window| then Some(window[k]) else None)
            && r.verdict.reason == (if !authorized then AwaitingConsent
                                    else if window == [] then NoRuns
                                    else if k == |window| then NoneClean(|window|, Describe(window[0]))
                                    else if recent then Fine else Stale(Age(window[k], now)))
            && r.failures == |ErrorsBefore(window, k)|
            && r.runs == ListRuns(rows, account, if limit <= 0 then 5 else limit)
  {
    var window := ListRuns(rows, account, 20);
    WindowOfBuild(rows, account, limit);
    FailuresCounted(rows, account, 20, k);
    if window != [] {
      VerdictFrom(window, 0, k, maxAge, now);
    }
  }

  lemma {:induction false} SomewhereFirst(window: seq<SyncRun>) returns (k: nat)
    ensures LooksUpTo(window, k)
  {
    if window == [] {
      k := 0;
    } else {
      k := SomewhereFirst(Front(window));
      if k == |Front(window)| && !Succeeded(Last(window)) {
        k := |window|;
      }
    }
  }

  /** r is the newest success of the window. */
  predicate NewestSuccess(window: seq<SyncRun>, r: SyncRun) {
    r in window && Succeeded(r) && forall q :: q in window && Newer(q, r) ==> !Succeeded(q)
  }

  lemma FirstIsNewest(window: seq<SyncRun>, k: nat, r: SyncRun)
    requires Sorted(window) && k < |window| && LooksUpTo(window, k)
    ensures NewestSuccess(window, r) <==> r == window[k]
  {
    assert forall i :: k < i < |window| ==> Newer(window[k], window[i]);
    assert window[k] in window;
    if r == window[k] {
      forall q | q in window && Newer(q, r)
        ensures !Succeeded(q)
      {
        var i :| 0 <= i < |window| && window[i] == q;
      }
    }
  }

  /** Healthy, in full: consent was given, and of the account's twenty newest
      runs the newest success is recent enough. */
  lemma HealthyExactlyWhen(rows: seq<SyncRun>, account: int, authorized: bool, maxAge: Time, now: Time, limit: int)
    requires KeyedById(rows)
    ensures Build(rows, account, authorized, maxAge, now, limit).verdict.healthy <==>
            authorized && exists r :: NewestSuccess(ListRuns(rows, account, 20), r) && Age(r, now) <= maxAge
    ensures Newest(ListRuns(rows, account, 20), rows, account, 20)
  {
    var window := ListRuns(rows, account, 20);
    var k := SomewhereFirst(window);
    ReportSays(rows, account, authorized, maxAge, now, limit, k);
    ListedAreNewest(rows, account, 20);
    if k < |window| {
      forall r
        ensures NewestSuccess(window, r) <==> r == window[k]
      {
        FirstIsNewest(window, k, r);
      }
    }
  }

  /** The reason names the newest run by its recorded kind of error if that says
      more than that it failed. */
  lemma NewestRunIsDescribed(r: SyncRun)
    ensures Describe(r) == match r.kind {
              case GrantRevoked => SaysRevoked
              case DiFMUnauthorized => SaysUnauthorized
              case RateLimited => SaysRateLimited
              case _ =>
                if r.failed then SaysErrored
                else if r.finished == None || r.finished == Some(Blank) then SaysInFlight
                else if r.dry then SaysDryRun
                else SaysUnreadable
            }
  {
  }
}
