/** What pruning keeps, that the status report cannot see it, and that a broken
    destination is tried once a day. */
module SnapshotPruning {
  import opened Common
  import opened FullDate
  import opened Snapshots

  // ---------- sorting strings ----------

  lemma {:induction false} LexTotal(a: string, b: string)
    ensures a == b || LexLess(a, b) || LexLess(b, a)
    ensures !(LexLess(a, b) && LexLess(b, a))
  {
    if a != [] && b != [] {
      LexTotal(a[1..], b[1..]);
      assert a == [a[0]] + a[1..] && b == [b[0]] + b[1..];
    }
  }

  lemma {:induction false} LexTransitive(a: string, b: string, c: string)
    requires LexLess(a, b) && LexLess(b, c)
    ensures LexLess(a, c)
  {
    if a != [] && a[0] == b[0] == c[0] {
      LexTransitive(a[1..], b[1..], c[1..]);
    }
  }

  predicate InOrder(s: seq<string>) {
    forall i, j :: 0 <= i < j < |s| ==> !LexLess(s[j], s[i])
  }

  lemma LeastStaysFirst(name: string, sorted: seq<string>)
    requires InOrder(sorted) && sorted != [] && LexLess(name, sorted[0])
    ensures InOrder([name] + sorted)
  {
    var r := [name] + sorted;
    forall i, j | 0 <= i < j < |r|
      ensures !LexLess(r[j], r[i])
    {
      if i == 0 && LexLess(sorted[j - 1], name) {
        LexTransitive(sorted[j - 1], name, sorted[0]);
        LexTotal(sorted[j - 1], sorted[0]);
      }
    }
  }

  lemma {:induction false} InsertSorts(name: string, sorted: seq<string>)
    requires InOrder(sorted)
    ensures InOrder(Insert(name, sorted))
  {
    if sorted != [] {
      if LexLess(name, sorted[0]) {
        LeastStaysFirst(name, sorted);
      } else {
        var rest := Insert(name, sorted[1..]);
        InsertSorts(name, sorted[1..]);
        forall j | 0 <= j < |rest|
          ensures !LexLess(rest[j], sorted[0])
        {
          assert rest[j] in rest;
        }
      }
    }
  }

  lemma {:induction false} AscendingSorts(names: seq<string>)
    ensures InOrder(Ascending(names))
  {
    if names != [] {
      AscendingSorts(Front(names));
      InsertSorts(Last(names), Ascending(Front(names)));
    }
  }

  lemma DistinctWithFirst(first: string, rest: seq<string>)
    requires Distinct(rest) && first !in rest
    ensures Distinct([first] + rest)
  {
  }

  lemma {:induction false} InsertKeepsDistinct(name: string, sorted: seq<string>)
    requires Distinct(sorted) && name !in sorted
    ensures Distinct(Insert(name, sorted))
  {
    if sorted == [] || LexLess(name, sorted[0]) {
      DistinctWithFirst(name, sorted);
    } else {
      var tail := sorted[1..];
      assert name !in tail && sorted[0] !in tail;
      InsertKeepsDistinct(name, tail);
      DistinctWithFirst(sorted[0], Insert(name, tail));
    }
  }

  lemma {:induction false} AscendingKeepsDistinct(names: seq<string>)
    requires Distinct(names)
    ensures Distinct(Ascending(names))
  {
    if names != [] {
      AscendingKeepsDistinct(Front(names));
      InsertKeepsDistinct(Last(names), Ascending(Front(names)));
    }
  }

  lemma {:induction false} SizeOfDistinct<T>(s: seq<T>)
    requires Distinct(s)
    ensures |Elements(s)| == |s|
  {
    if s != [] {
      SizeOfDistinct(Front(s));
      assert Elements(s) == Elements(Front(s)) + {Last(s)};
    }
  }

  // ---------- the snapshots of a directory ----------

  lemma {:induction false} SnapshotNamesMeans(entries: seq<Entry>)
    requires UniqueNames(entries)
    ensures Distinct(SnapshotNames(entries))
    ensures forall n :: n in SnapshotNames(entries) ==> SnapshotDay(n).Some? && Entry(n, false) in entries
    ensures forall e :: e in entries && IsSnapshot(e) ==> e.name in SnapshotNames(entries)
    ensures forall e :: e in entries && e.name in SnapshotNames(entries) ==> IsSnapshot(e)
  {
    if entries != [] {
      var front, last := Front(entries), Last(entries);
      assert entries == front + [last];
      SnapshotNamesMeans(front);
      assert forall e :: e in front ==> e.name != last.name;
    }
  }

  lemma AscendingKeepsDistinctHere(entries: seq<Entry>)
    requires UniqueNames(entries)
    ensures Distinct(Ascending(SnapshotNames(entries)))
  {
    SnapshotNamesMeans(entries);
    AscendingKeepsDistinct(SnapshotNames(entries));
  }

  /** The snapshots dated after name. */
  function Later(entries: seq<Entry>, name: string): set<string>
    requires SnapshotDay(name).Some?
  {
    set n | n in SnapshotNames(entries) && SnapshotDay(n).Some? && DayOf(name) < DayOf(n)
  }

  lemma SortedByDay(entries: seq<Entry>, i: nat, j: nat)
    requires UniqueNames(entries)
    requires i < |SnapshotNames(entries)| && j < |SnapshotNames(entries)|
    ensures var sorted := Ascending(SnapshotNames(entries));
            && SnapshotDay(sorted[i]).Some? && SnapshotDay(sorted[j]).Some?
            && (DayOf(sorted[i]) < DayOf(sorted[j]) <==> i < j)
  {
    var sorted := Ascending(SnapshotNames(entries));
    SnapshotNamesMeans(entries);
    AscendingSorts(SnapshotNames(entries));
    AscendingKeepsDistinct(SnapshotNames(entries));
    assert sorted[i] in sorted && sorted[j] in sorted;
    NameOrderIsDayOrder(sorted[i], sorted[j]);
    LexTotal(sorted[i], sorted[j]);
  }

  lemma LaterIsAfter(entries: seq<Entry>, i: nat, n: string)
    requires UniqueNames(entries)
    requires i < |SnapshotNames(entries)| && n in Ascending(SnapshotNames(entries))
    ensures SnapshotDay(Ascending(SnapshotNames(entries))[i]).Some?
    ensures n in Later(entries, Ascending(SnapshotNames(entries))[i])
            <==> n in Ascending(SnapshotNames(entries))[i + 1..]
  {
    var sorted := Ascending(SnapshotNames(entries));
    var j :| 0 <= j < |sorted| && sorted[j] == n;
    SortedByDay(entries, i, j);
    AscendingKeepsDistinctHere(entries);
    assert i < j ==> sorted[i + 1..][j - i - 1] == n;
  }

  /** In the sorted listing, what follows a name is what is dated after it. */
  lemma RankIsLater(entries: seq<Entry>, i: nat)
    requires UniqueNames(entries)
    requires i < |SnapshotNames(entries)|
    ensures SnapshotDay(Ascending(SnapshotNames(entries))[i]).Some?
    ensures |Later(entries, Ascending(SnapshotNames(entries))[i])| == |SnapshotNames(entries)| - 1 - i
  {
    var names := SnapshotNames(entries);
    var sorted := Ascending(names);
    SortedByDay(entries, i, i);
    forall n
      ensures n in Later(entries, sorted[i]) <==> n in sorted[i + 1..]
    {
      if n in sorted {
        LaterIsAfter(entries, i, n);
      }
    }
    AscendingKeepsDistinctHere(entries);
    assert Later(entries, sorted[i]) == Elements(sorted[i + 1..]);
    SizeOfDistinct(sorted[i + 1..]);
  }

  /** A prune sets out to delete exactly the snapshots with keep newer ones. */
  lemma VictimsAreTheOldest(entries: seq<Entry>, keep: int, name: string)
    requires UniqueNames(entries)
    ensures name in Victims(entries, keep) <==>
            0 < keep && name in SnapshotNames(entries) && SnapshotDay(name).Some? && keep <= |Later(entries, name)|
  {
    var names := SnapshotNames(entries);
    var sorted := Ascending(names);
    var n := |names|;
    if name in names {
      var i :| 0 <= i < n && sorted[i] == name;
      RankIsLater(entries, i);
      AscendingKeepsDistinctHere(entries);
      if 0 < keep < n {
        assert i <= n - 1 - keep ==> Reversed(sorted)[keep..][n - 1 - i - keep] == name;
      }
    } else {
      assert forall v :: v in Victims(entries, keep) ==> v in sorted;
    }
  }

  // ---------- a prune ----------

  /** However far the deletes got, everything that is not a snapshot stays, and
      so does every snapshot with fewer than keep newer ones. A prune that
      completed leaves no other snapshot. */
  lemma PruneKeepsTheNewest(entries: seq<Entry>, keep: int, s: Script, e: Entry)
    requires UniqueNames(entries) && e in entries
    ensures var after := Without(entries, Deleted(entries, keep, s));
            && UniqueNames(after)
            && (!IsSnapshot(e) || keep <= 0 || |Later(entries, e.name)| < keep ==> e in after)
            && (e in after && PruneSucceeds(entries, keep, s) ==>
                  !IsSnapshot(e) || keep <= 0 || |Later(entries, e.name)| < keep)
  {
    var deleted := Deleted(entries, keep, s);
    WithoutMeans(entries, deleted);
    SnapshotNamesMeans(entries);
    VictimsAreTheOldest(entries, keep, e.name);
    assert e.name in deleted ==> e.name in Victims(entries, keep);
    assert PruneSucceeds(entries, keep, s) && 0 < keep ==> deleted == Victims(entries, keep);
  }

  lemma SnapshotsLeft(entries: seq<Entry>, gone: seq<string>)
    requires UniqueNames(entries)
    ensures Distinct(SnapshotNames(Without(entries, gone)))
    ensures Elements(SnapshotNames(Without(entries, gone))) == Elements(SnapshotNames(entries)) - Elements(gone)
  {
    WithoutMeans(entries, gone);
    SnapshotNamesMeans(entries);
    SnapshotNamesMeans(Without(entries, gone));
  }

  lemma SizeOfRest(all: seq<string>, gone: seq<string>, left: seq<string>)
    requires Distinct(all) && Distinct(gone) && Distinct(left)
    requires Elements(left) == Elements(all) - Elements(gone) && Elements(gone) <= Elements(all)
    ensures |left| == |all| - |gone|
  {
    SizeOfDistinct(all);
    SizeOfDistinct(gone);
    SizeOfDistinct(left);
  }

  /** A completed prune leaves the smaller of keep and what there was. */
  lemma PruneLeavesKeep(entries: seq<Entry>, keep: int, s: Script)
    requires UniqueNames(entries) && PruneSucceeds(entries, keep, s)
    ensures var n := |SnapshotNames(entries)|;
            |SnapshotNames(Without(entries, Deleted(entries, keep, s)))| == if 0 < keep < n then keep else n
  {
    var names, victims := SnapshotNames(entries), Victims(entries, keep);
    assert Deleted(entries, keep, s) == victims;
    SnapshotsLeft(entries, victims);
    SnapshotNamesMeans(entries);
    AscendingKeepsDistinct(names);
    assert forall v :: v in victims ==> v in Ascending(names);
    SizeOfRest(names, victims, SnapshotNames(Without(entries, victims)));
  }

  // ---------- the status report ----------

  lemma {:induction false} DaysOfNames(entries: seq<Entry>)
    ensures |SnapshotDays(entries)| == |SnapshotNames(entries)|
    ensures forall i :: 0 <= i < |SnapshotDays(entries)| ==>
              SnapshotDay(SnapshotNames(entries)[i]) == Some(SnapshotDays(entries)[i])
              && ParseDay(SnapshotDays(entries)[i]).Some?
  {
    if entries != [] {
      DaysOfNames(Front(entries));
    }
  }

  lemma LastIsNotBefore(days: seq<string>, day: string)
    requires day in days && forall d :: d in days ==> ParseDay(d).Some?
    ensures Ascending(days) != [] && Last(Ascending(days)) in days
    ensures DayNumber(ParseDay(day).value) <= DayNumber(ParseDay(Last(Ascending(days))).value)
  {
    AscendingSorts(days);
    var sorted := Ascending(days);
    assert day in sorted;
    var last := Last(sorted);
    assert last in days;
    var j :| 0 <= j < |sorted| && sorted[j] == day;
    SpellingOrderIsDayOrder(last, day);
    SpellingOrderIsDayOrder(day, last);
  }

  lemma NoSnapshotIsLater(entries: seq<Entry>, n: string)
    requires n in SnapshotNames(entries)
    ensures LastBackup(entries) != "" && SnapshotDay(n).Some? && ParseDay(LastBackup(entries)).Some?
    ensures DayOf(n) <= DayNumber(ParseDay(LastBackup(entries)).value)
  {
    DaysOfNames(entries);
    var names, days := SnapshotNames(entries), SnapshotDays(entries);
    var i :| 0 <= i < |names| && names[i] == n;
    LastIsNotBefore(days, days[i]);
  }

  lemma SomeSnapshotIsLast(entries: seq<Entry>)
    requires SnapshotNames(entries) != []
    ensures exists n :: n in SnapshotNames(entries) && SnapshotDay(n) == Some(LastBackup(entries))
  {
    DaysOfNames(entries);
    var names, days := SnapshotNames(entries), SnapshotDays(entries);
    AscendingSorts(days);
    var last := Last(Ascending(days));
    assert last in days;
    var k :| 0 <= k < |days| && days[k] == last;
    assert names[k] in names && SnapshotDay(names[k]) == Some(last);
  }

  /** The reported date is the newest snapshot's, and blank when there is none. */
  lemma LastBackupMeans(entries: seq<Entry>)
    ensures LastBackup(entries) == "" <==> SnapshotNames(entries) == []
    ensures SnapshotNames(entries) != [] ==>
              && (exists n :: n in SnapshotNames(entries) && SnapshotDay(n) == Some(LastBackup(entries)))
              && forall n :: n in SnapshotNames(entries) ==>
                   SnapshotDay(n).Some? && DayOf(n) <= DayNumber(ParseDay(LastBackup(entries)).value)
  {
    DaysOfNames(entries);
    if SnapshotNames(entries) != [] {
      NoSnapshotIsLater(entries, SnapshotNames(entries)[0]);
      SomeSnapshotIsLast(entries);
      forall n | n in SnapshotNames(entries)
        ensures SnapshotDay(n).Some? && DayOf(n) <= DayNumber(ParseDay(LastBackup(entries)).value)
      {
        NoSnapshotIsLater(entries, n);
      }
    }
  }

  /** Only the newest snapshot matters to the report. */
  lemma NewestDecidesLastBackup(entries: seq<Entry>, after: seq<Entry>)
    requires forall n :: n in SnapshotNames(after) ==> n in SnapshotNames(entries)
    requires forall n :: n in SnapshotNames(entries) && SnapshotDay(n).Some? && Later(entries, n) == {} ==>
               n in SnapshotNames(after)
    ensures LastBackup(after) == LastBackup(entries)
  {
    LastBackupMeans(entries);
    LastBackupMeans(after);
    assert SnapshotNames(after) != [] ==> SnapshotNames(after)[0] in SnapshotNames(entries);
    if SnapshotNames(entries) != [] {
      var n :| n in SnapshotNames(entries) && SnapshotDay(n) == Some(LastBackup(entries));
      assert Later(entries, n) == {};
      SpellingOrderIsDayOrder(LastBackup(entries), LastBackup(after));
    }
  }

  /** No prune, complete or cut short, changes the reported last backup. */
  lemma PruneIsInvisibleToStatus(entries: seq<Entry>, keep: int, s: Script)
    requires UniqueNames(entries)
    ensures LastBackup(Without(entries, Deleted(entries, keep, s))) == LastBackup(entries)
  {
    var after := Without(entries, Deleted(entries, keep, s));
    SnapshotsLeft(entries, Deleted(entries, keep, s));
    assert forall n :: n in SnapshotNames(after) <==> n in Elements(SnapshotNames(after));
    assert forall n :: n in SnapshotNames(entries) <==> n in Elements(SnapshotNames(entries));
    forall n | n in SnapshotNames(entries) && SnapshotDay(n).Some? && Later(entries, n) == {}
      ensures n in SnapshotNames(after)
    {
      VictimsAreTheOldest(entries, keep, n);
      assert n !in Deleted(entries, keep, s);
    }
    NewestDecidesLastBackup(entries, after);
  }

  lemma ReversedFrom(sorted: seq<string>, rest: seq<string>, keep: nat, i: nat)
    requires keep + i < |sorted| && rest == Reversed(sorted)[keep..]
    ensures rest[i] == sorted[|sorted| - 1 - (keep + i)]
  {
    assert rest[i] == Reversed(sorted)[keep + i];
  }

  lemma VictimsAreReversed(entries: seq<Entry>, keep: int)
    requires Victims(entries, keep) != []
    ensures 0 < keep < |Ascending(SnapshotNames(entries))|
    ensures Victims(entries, keep) == Reversed(Ascending(SnapshotNames(entries)))[keep..]
  {
  }

  /** Victims go in the order of their rank: the newest of them first. */
  lemma VictimRank(entries: seq<Entry>, keep: int, i: nat)
    requires UniqueNames(entries) && i < |Victims(entries, keep)|
    ensures 0 < keep && SnapshotDay(Victims(entries, keep)[i]).Some?
    ensures |Later(entries, Victims(entries, keep)[i])| == keep + i
  {
    VictimsAreReversed(entries, keep);
    var sorted := Ascending(SnapshotNames(entries));
    ReversedFrom(sorted, Victims(entries, keep), keep, i);
    RankIsLater(entries, |sorted| - 1 - (keep + i));
  }

  /** A snapshot is deleted exactly when the deletes get as far as its rank. */
  lemma DeletedExactlyWhen(entries: seq<Entry>, keep: int, s: Script, name: string)
    requires UniqueNames(entries) && name in SnapshotNames(entries)
    ensures SnapshotDay(name).Some?
    ensures name in Deleted(entries, keep, s) <==> s.listed && 0 < keep <= |Later(entries, name)| < keep + s.deletes
  {
    SnapshotNamesMeans(entries);
    VictimsAreTheOldest(entries, keep, name);
    var victims := Victims(entries, keep);
    if name in victims {
      var i :| 0 <= i < |victims| && victims[i] == name;
      VictimRank(entries, keep, i);
      var deleted := Deleted(entries, keep, s);
      assert s.listed && i < s.deletes ==> deleted[i] == name;
      if name in deleted {
        var d :| 0 <= d < |deleted| && deleted[d] == name;
        VictimRank(entries, keep, d);
      }
    } else {
      assert name !in Deleted(entries, keep, s);
    }
  }

  /** A snapshot just written survives its own prune unless keep others carry
      later dates, as they can after the clock was set back, and the prune gets
      far enough to reach it. */
  lemma OwnPruneSparesTheNewSnapshotExactlyWhen(entries: seq<Entry>, lastAttempt: string, keep: int, s: Script)
    requires UniqueNames(entries) && ParseDay(s.day).Some?
    requires RunEffect(entries, lastAttempt, keep, s).result.Written?
    ensures SnapshotDay(FileName(s.day)) == Some(s.day)
    ensures var after, newer := RunEffect(entries, lastAttempt, keep, s).entries, |Later(entries, FileName(s.day))|;
            Entry(FileName(s.day), false) in after
            <==> keep <= 0 || newer < keep || !s.listed || keep + s.deletes <= newer
  {
    DaysAreReadBack(s.day);
    var e := Entry(FileName(s.day), false);
    var landed := entries + [e];
    assert Front(landed) == entries && Last(landed) == e;
    assert UniqueNames(landed);
    WithoutMeans(landed, Deleted(landed, keep, s));
    assert e.name in SnapshotNames(landed);
    DeletedExactlyWhen(landed, keep, s, e.name);
    assert Later(landed, e.name) == Later(entries, e.name);
  }

  lemma OneLater(older: string, newer: string)
    requires ParseDay(older).Some? && ParseDay(newer).Some?
    requires DayNumber(ParseDay(older).value) < DayNumber(ParseDay(newer).value)
    ensures SnapshotDay(FileName(older)).Some?
    ensures Later([Entry(FileName(newer), false)], FileName(older)) == {FileName(newer)}
  {
    DaysAreReadBack(older);
    DaysAreReadBack(newer);
    var e := Entry(FileName(newer), false);
    assert Front([e]) == [] && SnapshotNames([e]) == [e.name];
  }

  /** A directory, Keep 1 and a clock set back: the new snapshot is written and
      deleted in one run. */
  lemma NewSnapshotCanGoAtOnce()
    ensures exists entries, keep, s ::
              && UniqueNames(entries) && RunEffect(entries, "", keep, s).result == Written(FileName(s.day), true)
              && Entry(FileName(s.day), false) !in RunEffect(entries, "", keep, s).entries
  {
    var older, newer := FormatDay(Date(2026, 1, 1)), FormatDay(Date(2030, 1, 1));
    FormattedDayParses(Date(2026, 1, 1));
    FormattedDayParses(Date(2030, 1, 1));
    EarlierCountsLess(Date(2026, 1, 1), Date(2030, 1, 1));
    OneLater(older, newer);
    RunDeletesItsOwn(older, newer);
    var entries, s := [Entry(FileName(newer), false)], Script(older, true, true, true, true, 1);
    assert RunEffect(entries, "", 1, s).result == Written(FileName(s.day), true);
  }

  lemma RunDeletesItsOwn(older: string, newer: string)
    requires ParseDay(older).Some? && older != newer && SnapshotDay(FileName(older)).Some?
    requires Later([Entry(FileName(newer), false)], FileName(older)) == {FileName(newer)}
    ensures var entries, s := [Entry(FileName(newer), false)], Script(older, true, true, true, true, 1);
            && RunEffect(entries, "", 1, s).result == Written(FileName(older), true)
            && Entry(FileName(older), false) !in RunEffect(entries, "", 1, s).entries
  {
    var entries, s := [Entry(FileName(newer), false)], Script(older, true, true, true, true, 1);
    var landed := entries + [Entry(FileName(older), false)];
    assert FileName(older)[|PREFIX|..|PREFIX| + |older|] == older;
    assert FileName(newer)[|PREFIX|..|PREFIX| + |newer|] == newer;
    assert Front(entries) == [] && |SnapshotNames(entries)| <= 1;
    assert Front(landed) == entries && |SnapshotNames(landed)| <= 2;
    assert PruneSucceeds(landed, 1, s);
    OwnPruneSparesTheNewSnapshotExactlyWhen(entries, "", 1, s);
  }

  // ---------- what one run does ----------

  /** A run does nothing when the day was attempted already or its file is
      seen; otherwise it writes the day's snapshot exactly when both steps work
      and no file of that name is there, and fails without touching the
      directory. It remembers the day unless it did nothing. */
  lemma RunMeans(entries: seq<Entry>, lastAttempt: string, keep: int, s: Script)
    ensures var r, dest := RunEffect(entries, lastAttempt, keep, s), "difmsync-" + s.day + ".db";
            && (r.result.Nothing? <==> lastAttempt == s.day || (s.statSees && Holds(entries, dest)))
            && (r.attempted <==> !r.result.Nothing?)
            && (r.result.Written? <==>
                  !r.result.Nothing? && s.mkdirWorks && s.snapshotWorks && !Holds(entries, dest))
            && (!r.result.Written? ==> r.entries == entries)
            && (r.result.Written? ==> r.result.dest == dest)
  {
  }

  // ---------- one attempt a day ----------

  datatype Event = Pass(s: Script) | Restart | Operator(entries: seq<Entry>)

  /** The directory, the field, and the days on which a run since the last start
      wrote a snapshot or failed to. */
  datatype Shelf = Shelf(entries: seq<Entry>, lastAttempt: string, attempts: seq<string>)

  function Next(w: Shelf, keep: int, e: Event): Shelf {
    match e
    case Pass(s) =>
      var r := RunEffect(w.entries, w.lastAttempt, keep, s);
      Shelf(r.entries, if r.attempted then s.day else w.lastAttempt,
            if r.result.Nothing? then w.attempts else w.attempts + [s.day])
    case Restart => w.(lastAttempt := "", attempts := [])
    case Operator(entries) => w.(entries := entries)
  }

  function Replay(entries: seq<Entry>, keep: int, events: seq<Event>): Shelf {
    if events == [] then Shelf(entries, "", []) else Next(Replay(entries, keep, Front(events)), keep, Last(events))
  }

  /** The clock's day never goes back. */
  predicate ClockRuns(events: seq<Event>) {
    forall i, j :: 0 <= i < j < |events| && events[i].Pass? && events[j].Pass? ==>
      !LexLess(events[j].s.day, events[i].s.day)
  }

  /** The attempts are on ever later days, the last one remembered. */
  predicate Climbs(w: Shelf) {
    && (forall i, j :: 0 <= i < j < |w.attempts| ==> LexLess(w.attempts[i], w.attempts[j]))
    && w.lastAttempt == (if w.attempts == [] then "" else Last(w.attempts))
  }

  /** No attempt is on a day no pass of the run had. */
  ghost predicate OnDaysOf(attempts: seq<string>, events: seq<Event>) {
    forall d :: d in attempts ==> exists k :: 0 <= k < |events| && events[k].Pass? && events[k].s.day == d
  }

  lemma LaterDayClimbs(attempts: seq<string>, day: string)
    requires forall i, j :: 0 <= i < j < |attempts| ==> LexLess(attempts[i], attempts[j])
    requires attempts != [] ==> LexLess(Last(attempts), day)
    ensures forall i, j :: 0 <= i < j < |attempts| + 1 ==> LexLess((attempts + [day])[i], (attempts + [day])[j])
  {
    forall i | 0 <= i < |attempts|
      ensures LexLess(attempts[i], day)
    {
      if i < |attempts| - 1 {
        LexTransitive(attempts[i], Last(attempts), day);
      }
    }
  }

  lemma PassClimbs(w: Shelf, keep: int, s: Script)
    requires Climbs(w) && forall d :: d in w.attempts ==> !LexLess(s.day, d)
    ensures Climbs(Next(w, keep, Pass(s)))
    ensures var attempts := Next(w, keep, Pass(s)).attempts; attempts == w.attempts || attempts == w.attempts + [s.day]
  {
    var w' := Next(w, keep, Pass(s));
    if w'.attempts != w.attempts {
      if w.attempts != [] {
        LexTotal(Last(w.attempts), s.day);
        assert Last(w.attempts) in w.attempts;
      }
      LaterDayClimbs(w.attempts, s.day);
    }
  }

  lemma DaysOfLonger(attempts: seq<string>, front: seq<Event>, last: Event)
    requires OnDaysOf(attempts, front)
    ensures OnDaysOf(attempts, front + [last])
    ensures last.Pass? ==> OnDaysOf(attempts + [last.s.day], front + [last])
  {
    var events := front + [last];
    assert events[|front|] == last;
    forall d | d in attempts
      ensures exists k :: 0 <= k < |events| && events[k].Pass? && events[k].s.day == d
    {
      var k :| 0 <= k < |front| && front[k].Pass? && front[k].s.day == d;
      assert events[k] == front[k];
    }
  }

  lemma NoAttemptIsLater(attempts: seq<string>, front: seq<Event>, last: Event, d: string)
    requires ClockRuns(front + [last]) && last.Pass? && OnDaysOf(attempts, front) && d in attempts
    ensures !LexLess(last.s.day, d)
  {
    var events := front + [last];
    var k :| 0 <= k < |front| && front[k].Pass? && front[k].s.day == d;
    assert events[k] == front[k] && events[|front|] == last;
  }

  lemma ClockRanBefore(front: seq<Event>, last: Event)
    requires ClockRuns(front + [last])
    ensures ClockRuns(front)
  {
    assert forall k :: 0 <= k < |front| ==> front[k] == (front + [last])[k];
  }

  lemma {:induction false} AttemptsClimb(entries: seq<Entry>, keep: int, events: seq<Event>)
    requires ClockRuns(events)
    ensures Climbs(Replay(entries, keep, events)) && OnDaysOf(Replay(entries, keep, events).attempts, events)
  {
    if events != [] {
      var front, last := Front(events), Last(events);
      assert events == front + [last];
      ClockRanBefore(front, last);
      AttemptsClimb(entries, keep, front);
      var w := Replay(entries, keep, front);
      DaysOfLonger(w.attempts, front, last);
      if last.Pass? {
        forall d | d in w.attempts
          ensures !LexLess(last.s.day, d)
        {
          NoAttemptIsLater(w.attempts, front, last, d);
        }
        PassClimbs(w, keep, last.s);
      }
    }
  }

  /** However often passes run, and whatever fails, between two starts of the
      daemon no day sees two snapshots written or two failures reported, nor one
      of each. */
  lemma OneAttemptADay(entries: seq<Entry>, keep: int, events: seq<Event>)
    requires ClockRuns(events)
    ensures Distinct(Replay(entries, keep, events).attempts)
  {
    AttemptsClimb(entries, keep, events);
    var attempts := Replay(entries, keep, events).attempts;
    forall i, j | 0 <= i < j < |attempts|
      ensures attempts[i] != attempts[j]
    {
      SameIsNotLess(attempts[i]);
    }
  }
}
