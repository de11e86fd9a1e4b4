/** The recovery command: forgetting ledger rows and moving the watermark
    back so that the forgotten likes are read again. */
module Resync {
  import opened Common
  import opened Difm
  import opened DifmWalk
  import opened World
  import Engine

  /** all, forget and forgetAll are the command's flags. */
  datatype Command = Command(all: bool, forget: seq<int>, forgetAll: bool) {
    predicate ClearsMark() { all || forgetAll }
  }

  /** What the forget loop has done: rows left, the earliest like forgotten
      (UNSET while there is none), and how many ids had no row. */
  datatype Forgotten = Forgotten(ledger: map<int, LedgerRow>, earliest: Time, missed: nat)

  function Forget(ledger: map<int, LedgerRow>, ids: seq<int>): Forgotten {
    if ids == [] then Forgotten(ledger, UNSET, 0)
    else
      var f := Forget(ledger, Front(ids));
      var id := Last(ids);
      if id !in f.ledger then f.(missed := f.missed + 1)
      else
        var at := f.ledger[id].likedAt;
        Forgotten(f.ledger - {id}, if f.earliest == UNSET || at < f.earliest then at else f.earliest, f.missed)
  }

  /** The watermark after forgetting, when it is not being cleared. */
  function Rewound(watermark: Time, earliest: Time): Time {
    if earliest != UNSET && watermark >= earliest then Stored(earliest - SECOND) else watermark
  }

  /** A resync that runs to completion. */
  function Resynced(w: World, c: Command): World {
    if c.forgetAll then w.(ledger := map[], watermark := UNSET)
    else if c.forget == [] then if c.all then w.(watermark := UNSET) else w
    else
      var f := Forget(w.ledger, c.forget);
      if c.all then w.(ledger := f.ledger, watermark := UNSET)
      else w.(ledger := f.ledger, watermark := Rewound(w.watermark, f.earliest))
  }

  method Run(store: Engine.Store, c: Command) returns (ok: bool)
    modifies store`ledger, store`watermark
    ensures forall w: World :: w.ledger == old(store.ledger) && w.watermark == old(store.watermark) ==>
              store.ledger == Resynced(w, c).ledger && store.watermark == Resynced(w, c).watermark
    ensures ok <==> c.ClearsMark() || Forget(old(store.ledger), c.forget).missed < |c.forget|
  {
    if !c.ClearsMark() && |c.forget| == 0 {
      return false;
    }
    if c.forgetAll {
      store.ledger := map[];
    } else if |c.forget| > 0 {
      var before := store.watermark;
      var missed: nat, earliest := 0, UNSET;
      for i := 0 to |c.forget|
        invariant Forgotten(store.ledger, earliest, missed) == Forget(old(store.ledger), c.forget[..i])
        invariant missed == i ==> store.ledger == old(store.ledger) && earliest == UNSET
        invariant missed <= i && store.watermark == before
      {
        var id := c.forget[i];
        assert Front(c.forget[..i + 1]) == c.forget[..i] && Last(c.forget[..i + 1]) == id;
        if id in store.ledger {
          var at := store.ledger[id].likedAt;
          if earliest == UNSET || at < earliest {
            earliest := at;
          }
          store.ledger := store.ledger - {id};
        } else {
          missed := missed + 1;
        }
      }
      assert c.forget[..|c.forget|] == c.forget;
      if missed == |c.forget| && !c.ClearsMark() {
        return false;
      }
      if !c.ClearsMark() && earliest != UNSET && !(before < earliest) {
        store.SetWatermark(earliest - SECOND);
      }
    }
    if c.ClearsMark() {
      store.ClearWatermark();
    }
    ok := true;
  }

  // ---------- what a forget does ----------

  /** Times read back from the store: whole milliseconds, never the zero
      time. */
  predicate StoredTimes(ledger: map<int, LedgerRow>) {
    forall id :: id in ledger ==> ledger[id].likedAt > 0 && ledger[id].likedAt % MILLISECOND == 0
  }

  lemma {:induction false} ForgetRemoves(ledger: map<int, LedgerRow>, ids: seq<int>)
    ensures Forget(ledger, ids).ledger == ledger - Elements(ids)
  {
    if ids != [] {
      ForgetRemoves(ledger, Front(ids));
      assert ids == Front(ids) + [Last(ids)];
      assert Elements(ids) == Elements(Front(ids)) + {Last(ids)};
    }
  }

  /** Every id is either a removed row, counted once, or a miss. */
  lemma {:induction false} ForgetCounts(ledger: map<int, LedgerRow>, ids: seq<int>)
    ensures Forget(ledger, ids).missed + Hits(ledger.Keys, ids) == |ids|
  {
    if ids != [] {
      ForgetCounts(ledger, Front(ids));
      MissesGrow(ledger, ids);
      HitsGrow(ledger.Keys, ids);
    }
  }

  lemma MissesGrow(ledger: map<int, LedgerRow>, ids: seq<int>)
    requires ids != []
    ensures Forget(ledger, ids).missed ==
            Forget(ledger, Front(ids)).missed + if Last(ids) in ledger.Keys && Last(ids) !in Front(ids) then 0 else 1
  {
    ForgetRemoves(ledger, Front(ids));
  }

  function Hits(keys: set<int>, ids: seq<int>): nat {
    |keys * Elements(ids)|
  }

  lemma HitsGrow(keys: set<int>, ids: seq<int>)
    requires ids != []
    ensures Hits(keys, ids) == Hits(keys, Front(ids)) + if Last(ids) in keys && Last(ids) !in Front(ids) then 1 else 0
  {
    var front, last := Front(ids), Last(ids);
    assert ids == front + [last];
    var hits := keys * Elements(front);
    if last in keys && last !in front {
      assert keys * Elements(ids) == hits + {last};
    } else {
      assert keys * Elements(ids) == hits;
    }
  }

  /** The time the rewind starts from is the earliest of the removed rows,
      and is unset exactly when none was removed. */
  predicate IsEarliest(ledger: map<int, LedgerRow>, ids: seq<int>, earliest: Time) {
    && (forall id :: id in ledger && id in ids ==> earliest != UNSET && earliest <= ledger[id].likedAt)
    && (earliest != UNSET ==> exists id :: id in ledger && id in ids && ledger[id].likedAt == earliest)
  }

  lemma {:induction false} ForgetFindsEarliest(ledger: map<int, LedgerRow>, ids: seq<int>)
    requires StoredTimes(ledger)
    ensures IsEarliest(ledger, ids, Forget(ledger, ids).earliest)
  {
    if ids != [] {
      var front, hit := Front(ids), Last(ids);
      ForgetFindsEarliest(ledger, front);
      ForgetRemoves(ledger, front);
      assert ids == front + [hit];
      var f := Forget(ledger, front);
      assert hit in ledger && hit !in f.ledger ==> hit in front;
      if f.earliest != UNSET {
        var id :| id in ledger && id in front && ledger[id].likedAt == f.earliest;
        assert id in ids;
      }
    }
  }

  /** Resync clears both suppressors: every forgotten row's like lies strictly
      after the new watermark, or the watermark is unset; and the watermark
      stays put or moves to one second before the earliest of them. Rows not
      named, and the queue, stay. */
  lemma ForgetClearsBothSuppressors(w: World, ids: seq<int>)
    requires StoredTimes(w.ledger)
    ensures var w' := Resynced(w, Command(false, ids, false));
            && w'.ledger == w.ledger - Elements(ids)
            && w' == w.(ledger := w'.ledger, watermark := w'.watermark)
            && (forall id :: id in w.ledger && id in ids ==>
                  w'.watermark == UNSET || w'.watermark < w.ledger[id].likedAt)
            && w'.watermark <= w.watermark
            && (w'.watermark == w.watermark ||
                exists id :: id in w.ledger && id in ids && w'.watermark == w.ledger[id].likedAt - 1_000_000_000)
  {
    if ids == [] {
      assert w.ledger - Elements(ids) == w.ledger;
    } else {
      ForgetRemoves(w.ledger, ids);
      ForgetFindsEarliest(w.ledger, ids);
    }
  }

  /** What the flags mean. Forgetting everything empties the ledger, naming
      tracks removes their rows, and asking for all likes or forgetting all
      clears the watermark, so that every vote is read again. Nothing else is
      touched, and without flags nothing at all. */
  lemma ResyncMeans(w: World, c: Command)
    ensures var w' := Resynced(w, c);
            && w' == w.(ledger := w'.ledger, watermark := w'.watermark)
            && w'.ledger == (if c.forgetAll then map[] else w.ledger - Elements(c.forget))
            && (c.all || c.forgetAll ==> w'.watermark == UNSET && forall v :: v in w.votes ==> After(v, w'.watermark))
            && (!c.all && !c.forgetAll && c.forget == [] ==> w' == w)
  {
    ForgetRemoves(w.ledger, c.forget);
    if c.forget == [] {
      assert w.ledger - Elements(c.forget) == w.ledger;
    }
  }
}
