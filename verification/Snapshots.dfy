/** Scheduled snapshots: one attempt a day, the prune after a successful one,
    and the separate reading of the newest date for the status report. */
module Snapshots {
  import opened Common
  import opened FullDate

  const PREFIX := "difmsync-"
  const SUFFIX := ".db"

  datatype Entry = Entry(name: string, isDir: bool)

  // ---------- names ----------

  predicate HasPrefix(s: string, p: string) {
    |p| <= |s| && s[..|p|] == p
  }

  predicate HasSuffix(s: string, p: string) {
    |p| <= |s| && s[|s| - |p|..] == p
  }

  function TrimPrefix(s: string, p: string): string {
    if HasPrefix(s, p) then s[|p|..] else s
  }

  function TrimSuffix(s: string, p: string): string {
    if HasSuffix(s, p) then s[..|s| - |p|] else s
  }

  /** The middle of a snapshot's name, when it is a date. */
  function SnapshotDay(name: string): Option<string> {
    if !HasPrefix(name, PREFIX) || !HasSuffix(name, SUFFIX) then None
    else
      var mid := TrimSuffix(TrimPrefix(name, PREFIX), SUFFIX);
      if ParseDay(mid).Some? then Some(mid) else None
  }

  function FileName(day: string): string {
    PREFIX + day + SUFFIX
  }

  predicate IsSnapshot(e: Entry) {
    !e.isDir && SnapshotDay(e.name).Some?
  }

  function DayOf(name: string): int
    requires SnapshotDay(name).Some?
  {
    DayNumber(ParseDay(SnapshotDay(name).value).value)
  }

  lemma NamesSpellTheirDays(name: string)
    ensures SnapshotDay(name).Some? ==> name == FileName(SnapshotDay(name).value)
  {
    if SnapshotDay(name).Some? {
      var rest := TrimPrefix(name, PREFIX);
      assert name == PREFIX + rest;
      assert HasSuffix(rest, SUFFIX);
    }
  }

  lemma DaysAreReadBack(day: string)
    requires ParseDay(day).Some?
    ensures SnapshotDay(FileName(day)) == Some(day)
  {
    var name := FileName(day);
    assert name[..9] == PREFIX && name[9..] == day + SUFFIX;
    assert name[|name| - 3..] == SUFFIX;
    assert (day + SUFFIX)[10..] == SUFFIX && (day + SUFFIX)[..10] == day;
  }

  /** A name is a snapshot's exactly when it is "difmsync-", a date, ".db". */
  lemma SnapshotNamesAre(name: string, day: string)
    ensures SnapshotDay(name) == Some(day) <==> name == "difmsync-" + day + ".db" && ParseDay(day).Some?
  {
    NamesSpellTheirDays(name);
    if ParseDay(day).Some? {
      DaysAreReadBack(day);
    }
  }

  /** Sorting validated names sorts their dates. */
  lemma NameOrderIsDayOrder(a: string, b: string)
    requires SnapshotDay(a).Some? && SnapshotDay(b).Some?
    ensures LexLess(a, b) <==> DayOf(a) < DayOf(b)
    ensures a == b <==> DayOf(a) == DayOf(b)
  {
    NamesSpellTheirDays(a);
    NamesSpellTheirDays(b);
    var s, t := SnapshotDay(a).value, SnapshotDay(b).value;
    assert a == PREFIX + (s + SUFFIX) && b == PREFIX + (t + SUFFIX);
    LexSplit(PREFIX, s + SUFFIX, PREFIX, t + SUFFIX);
    LexSplit(s, SUFFIX, t, SUFFIX);
    SameIsNotLess(PREFIX);
    SameIsNotLess(SUFFIX);
    SpellingOrderIsDayOrder(s, t);
  }

  lemma {:induction false} SameIsNotLess(s: string)
    ensures !LexLess(s, s)
  {
    if s != [] {
      SameIsNotLess(s[1..]);
    }
  }

  // ---------- listing and sorting ----------

  predicate UniqueNames(entries: seq<Entry>) {
    forall i, j :: 0 <= i < j < |entries| ==> entries[i].name != entries[j].name
  }

  function SnapshotNames(entries: seq<Entry>): seq<string> {
    if entries == [] then []
    else SnapshotNames(Front(entries)) + if IsSnapshot(Last(entries)) then [Last(entries).name] else []
  }

  /** The dates lastBackupAt collects. */
  function SnapshotDays(entries: seq<Entry>): seq<string> {
    if entries == [] then []
    else
      SnapshotDays(Front(entries))
      + if IsSnapshot(Last(entries)) then [SnapshotDay(Last(entries).name).value] else []
  }

  function Insert(name: string, sorted: seq<string>): (r: seq<string>)
    ensures |r| == |sorted| + 1
    ensures forall n :: n in r <==> n == name || n in sorted
  {
    if sorted == [] || LexLess(name, sorted[0]) then [name] + sorted
    else
      var rest := Insert(name, sorted[1..]);
      assert forall n :: n in sorted <==> n == sorted[0] || n in sorted[1..];
      [sorted[0]] + rest
  }

  /** What sort.Strings leaves. */
  function Ascending(names: seq<string>): (r: seq<string>)
    ensures |r| == |names|
    ensures forall n :: n in r <==> n in names
  {
    if names == [] then []
    else
      assert names == Front(names) + [Last(names)];
      Insert(Last(names), Ascending(Front(names)))
  }

  // ---------- what a prune removes ----------

  /** The names prune sets out to delete, in the order it deletes them. */
  function Victims(entries: seq<Entry>, keep: int): seq<string> {
    var names := SnapshotNames(entries);
    if keep <= 0 || |names| <= keep then [] else Reversed(Ascending(names))[keep..]
  }

  function Without(entries: seq<Entry>, gone: seq<string>): seq<Entry> {
    if entries == [] then []
    else Without(Front(entries), gone) + if Last(entries).name in gone then [] else [Last(entries)]
  }

  /** The newest snapshot's date as the status report gives it. */
  function LastBackup(entries: seq<Entry>): string {
    var days := SnapshotDays(entries);
    if days == [] then "" else Last(Ascending(days))
  }

  // ---------- the code ----------

  class Directory {
    var entries: seq<Entry>

    /** os.Remove: the entry goes, or the call fails and nothing does. */
    method Remove(name: string, works: bool)
      modifies this
      ensures entries == if works then Without(old(entries), [name]) else old(entries)
    {
      if works {
        var rest := [];
        for i := 0 to |entries|
          invariant entries == old(entries) && rest == Without(entries[..i], [name])
        {
          assert Front(entries[..i + 1]) == entries[..i] && Last(entries[..i + 1]) == entries[i];
          if entries[i].name != name {
            rest := rest + [entries[i]];
          }
        }
        assert entries[..|entries|] == entries;
        entries := rest;
      }
    }
  }

  /** Fates of one call: what stat and ReadDir see, which steps work, and how
      many deletes succeed before one fails. */
  datatype Script = Script(
    day: string, statSees: bool, mkdirWorks: bool, snapshotWorks: bool, listed: bool, deletes: nat)

  datatype Result = Nothing | Failed | Written(dest: string, pruned: bool)

  /** The names a prune got round to deleting. */
  function Deleted(entries: seq<Entry>, keep: int, s: Script): seq<string> {
    var victims := Victims(entries, keep);
    if !s.listed then [] else victims[..if s.deletes < |victims| then s.deletes else |victims|]
  }

  predicate PruneSucceeds(entries: seq<Entry>, keep: int, s: Script) {
    keep <= 0 || (s.listed && |Victims(entries, keep)| <= s.deletes)
  }

  predicate Holds(entries: seq<Entry>, name: string) {
    exists e :: e in entries && e.name == name
  }

  /** What one run does to the directory, the day remembered, and its answer. */
  datatype Effect = Effect(entries: seq<Entry>, attempted: bool, result: Result)

  function RunEffect(entries: seq<Entry>, lastAttempt: string, keep: int, s: Script): Effect {
    var dest := FileName(s.day);
    if lastAttempt == s.day || (s.statSees && Holds(entries, dest)) then Effect(entries, false, Nothing)
    else if !s.mkdirWorks || !s.snapshotWorks || Holds(entries, dest) then Effect(entries, true, Failed)
    else
      var landed := entries + [Entry(dest, false)];
      Effect(Without(landed, Deleted(landed, keep, s)), true, Written(dest, PruneSucceeds(landed, keep, s)))
  }

  class Backups {
    const dir: Directory
    const keep: int
    var lastAttempt: string

    constructor (dir: Directory, keep: int)
      ensures this.dir == dir && this.keep == keep && lastAttempt == ""
    {
      this.dir := dir;
      this.keep := keep;
      lastAttempt := "";
    }

    /** The names ReadDir shows that are snapshots. */
    method ListSnapshots() returns (names: seq<string>)
      ensures names == SnapshotNames(dir.entries)
    {
      names := [];
      for i := 0 to |dir.entries|
        invariant names == SnapshotNames(dir.entries[..i])
      {
        var e := dir.entries[i];
        assert Front(dir.entries[..i + 1]) == dir.entries[..i] && Last(dir.entries[..i + 1]) == e;
        if !e.isDir {
          if SnapshotDay(e.name).Some? {
            names := names + [e.name];
          }
        }
      }
      assert dir.entries[..|dir.entries|] == dir.entries;
    }

    /** Deletes in order up to the first delete that fails. */
    method DeleteAll(victims: seq<string>, deletes: nat) returns (ok: bool)
      modifies dir
      ensures dir.entries == Without(old(dir.entries), victims[..if deletes < |victims| then deletes else |victims|])
      ensures ok == (|victims| <= deletes)
    {
      WithoutNothing(dir.entries, victims[..0]);
      var i := 0;
      ok := true;
      while i < |victims| && ok
        invariant 0 <= i <= |victims| && i <= deletes
        invariant dir.entries == Without(old(dir.entries), victims[..i])
        invariant !ok ==> i == deletes && i < |victims|
        decreases |victims| - i, ok
      {
        ok := i < deletes;
        dir.Remove(victims[i], ok);
        if ok {
          WithoutOneMore(old(dir.entries), victims[..i], victims[i]);
          assert victims[..i] + [victims[i]] == victims[..i + 1];
          i := i + 1;
        }
      }
    }

    method Prune(s: Script) returns (ok: bool)
      modifies dir
      ensures dir.entries == Without(old(dir.entries), Deleted(old(dir.entries), keep, s))
      ensures ok == PruneSucceeds(old(dir.entries), keep, s)
    {
      ghost var before := dir.entries;
      ok := keep <= 0;
      if keep <= 0 || !s.listed {
        WithoutNothing(before, Deleted(before, keep, s));
      } else {
        var names := ListSnapshots();
        if |names| <= keep {
          WithoutNothing(before, Deleted(before, keep, s));
          ok := true;
        } else {
          names := Reversed(Ascending(names));
          ok := DeleteAll(names[keep..], s.deletes);
        }
      }
    }

    method Run(s: Script) returns (result: Result)
      modifies this`lastAttempt, dir
      ensures var e := RunEffect(old(dir.entries), old(lastAttempt), keep, s);
              && dir.entries == e.entries
              && lastAttempt == (if e.attempted then s.day else old(lastAttempt))
              && result == e.result
    {
      if lastAttempt == s.day {
        return Nothing;
      }
      var dest := FileName(s.day);
      var taken := Present(dir.entries, dest);
      if s.statSees && taken {
        return Nothing;
      }
      lastAttempt := s.day;
      if !s.mkdirWorks {
        return Failed;
      }
      if !s.snapshotWorks || taken {
        return Failed;
      }
      dir.entries := dir.entries + [Entry(dest, false)];
      var pruned := Prune(s);
      return Written(dest, pruned);
    }
  }

  method Present(entries: seq<Entry>, name: string) returns (r: bool)
    ensures r == Holds(entries, name)
  {
    for i := 0 to |entries|
      invariant forall j :: 0 <= j < i ==> entries[j].name != name
    {
      if entries[i].name == name {
        return true;
      }
    }
    return false;
  }

  /** lastBackupAt: no configured directory, or one that cannot be listed,
      reads as no backup. */
  method LastBackupAt(configured: bool, listed: bool, entries: seq<Entry>) returns (day: string)
    ensures day == if configured && listed then LastBackup(entries) else ""
  {
    if !configured || !listed {
      return "";
    }
    var days := [];
    for i := 0 to |entries|
      invariant days == SnapshotDays(entries[..i])
    {
      assert Front(entries[..i + 1]) == entries[..i] && Last(entries[..i + 1]) == entries[i];
      if !entries[i].isDir {
        var d := SnapshotDay(entries[i].name);
        if d.Some? {
          days := days + [d.value];
        }
      }
    }
    assert entries[..|entries|] == entries;
    if days == [] {
      return "";
    }
    days := Ascending(days);
    return Last(days);
  }

  lemma {:induction false} WithoutNothing(entries: seq<Entry>, none: seq<string>)
    requires |none| == 0
    ensures Without(entries, none) == entries
  {
    if entries != [] {
      WithoutNothing(Front(entries), none);
      assert entries == Front(entries) + [Last(entries)];
    }
  }

  lemma {:induction false} WithoutOneMore(entries: seq<Entry>, gone: seq<string>, name: string)
    ensures Without(Without(entries, gone), [name]) == Without(entries, gone + [name])
  {
    if entries != [] {
      var front, last := Front(entries), Last(entries);
      WithoutOneMore(front, gone, name);
      if last.name !in gone {
        assert Front(Without(front, gone) + [last]) == Without(front, gone);
      } else {
        assert Without(entries, gone) == Without(front, gone);
      }
    }
  }

  lemma {:induction false} WithoutMeans(entries: seq<Entry>, gone: seq<string>)
    requires UniqueNames(entries)
    ensures UniqueNames(Without(entries, gone))
    ensures forall e :: e in Without(entries, gone) <==> e in entries && e.name !in gone
  {
    if entries != [] {
      var front, last := Front(entries), Last(entries);
      assert entries == front + [last];
      WithoutMeans(front, gone);
      assert forall e :: e in front ==> e.name != last.name;
      var rest := Without(front, gone);
      assert forall i :: 0 <= i < |rest| ==> rest[i] in front;
    }
  }
}
