/** Reading the whole playlist, page by page, as a set of track ids. */
module PlaylistRead {
  import opened Common
  import opened World

  const PAGE_SIZE := 100
  const MAX_OFFSET := 100_000

  /** One response: the total it claims (0 when absent), and its items, None
      standing for an item without a track id. */
  datatype Page = Page(total: nat, items: seq<Option<SpotifyId>>)

  function Ids(items: seq<Option<SpotifyId>>): set<SpotifyId> {
    set i | 0 <= i < |items| && items[i].Some? :: items[i].value
  }

  /** The read from an offset on, for any server; None is an error. */
  function ReadFrom(server: nat -> Option<Page>, offset: nat, ids: set<SpotifyId>): Option<set<SpotifyId>>
    decreases MAX_OFFSET + PAGE_SIZE - offset
  {
    if offset > MAX_OFFSET || server(offset).None? then None
    else
      var page := server(offset).value;
      var ids' := ids + Ids(page.items);
      if |page.items| < PAGE_SIZE || (page.total > 0 && offset + |page.items| >= page.total) then Some(ids')
      else ReadFrom(server, offset + PAGE_SIZE, ids')
  }

  method PlaylistTrackIds(server: nat -> Option<Page>) returns (r: Option<set<SpotifyId>>)
    ensures r == ReadFrom(server, 0, {})
  {
    var ids: set<SpotifyId> := {};
    var offset := 0;
    while offset <= MAX_OFFSET
      invariant 0 <= offset <= MAX_OFFSET + PAGE_SIZE
      invariant ReadFrom(server, 0, {}) == ReadFrom(server, offset, ids)
    {
      var reply := server(offset);
      if reply.None? {
        return None;
      }
      var page := reply.value;
      ghost var before := ids;
      for i := 0 to |page.items|
        invariant ids == before + Ids(page.items[..i])
      {
        assert page.items[..i + 1] == page.items[..i] + [page.items[i]];
        assert Ids(page.items[..i + 1])
            == Ids(page.items[..i]) + if page.items[i].Some? then {page.items[i].value} else {};
        if page.items[i].Some? {
          ids := ids + {page.items[i].value};
        }
      }
      assert page.items[..|page.items|] == page.items;
      if |page.items| == 0 || |page.items| < PAGE_SIZE {
        return Some(ids);
      }
      if page.total > 0 && offset + |page.items| >= page.total {
        return Some(ids);
      }
      offset := offset + PAGE_SIZE;
    }
    r := None;
  }

  function Min(a: nat, b: nat): nat {
    if a < b then a else b
  }

  /** A server that holds items, reports a true total or none, and never
      fails. */
  function Holding(items: seq<Option<SpotifyId>>, totals: bool): nat -> Option<Page> {
    (offset: nat) =>
      Some(Page(if totals then |items| else 0,
                items[Min(offset, |items|)..Min(offset + PAGE_SIZE, |items|)]))
  }

  /** The longest playlist the walk can read to its end. */
  function Longest(totals: bool): nat {
    if totals then 100_100 else 100_099
  }

  /** The same server, except that some pages cannot be had. */
  function Failing(items: seq<Option<SpotifyId>>, totals: bool, fails: nat -> bool): nat -> Option<Page> {
    (offset: nat) => if fails(offset) then None else Holding(items, totals)(offset)
  }

  // ---------- page by page ----------

  /** The number of the last page asked for: with totals the one the playlist
      ends on; without, a full last page takes one more. */
  function LastPage(len: nat, totals: bool): nat {
    if !totals then len / 100 else if len == 0 then 0 else (len - 1) / 100
  }

  /** The read from the k-th page on, the pages before it having been read. */
  function ReadOn(server: nat -> Option<Page>, items: seq<Option<SpotifyId>>, k: nat): Option<set<SpotifyId>>
    requires 100 * k <= MAX_OFFSET + PAGE_SIZE
  {
    ReadFrom(server, 100 * k, Ids(items[..Min(100 * k, |items|)]))
  }

  lemma IdsOfMore(items: seq<Option<SpotifyId>>, offset: nat, e: nat)
    requires offset <= e <= |items|
    ensures Ids(items[..e]) == Ids(items[..offset]) + Ids(items[offset..e])
  {
    assert items[..e] == items[..offset] + items[offset..e];
  }

  /** The read of a page that is there, and what it goes on to. */
  lemma ReadTurn(server: nat -> Option<Page>, offset: nat, ids: set<SpotifyId>, page: Page)
    requires offset <= 100_000 && server(offset) == Some(page)
    ensures ReadFrom(server, offset, ids) ==
            if |page.items| < 100 || (page.total > 0 && offset + |page.items| >= page.total)
            then Some(ids + Ids(page.items)) else ReadFrom(server, offset + 100, ids + Ids(page.items))
  {
  }

  lemma ReadsOn(server: nat -> Option<Page>, items: seq<Option<SpotifyId>>, totals: bool, k: nat)
    requires k <= 1000 && k <= LastPage(|items|, totals) && server(100 * k) == Holding(items, totals)(100 * k)
    ensures ReadOn(server, items, k) ==
            if k == LastPage(|items|, totals) then Some(Ids(items)) else ReadOn(server, items, k + 1)
  {
    var offset, e := 100 * k, Min(100 * k + 100, |items|);
    var page := Page(if totals then |items| else 0, items[Min(offset, |items|)..e]);
    assert server(offset) == Some(page);
    IdsOfMore(items, Min(offset, |items|), e);
    ReadTurn(server, offset, Ids(items[..Min(offset, |items|)]), page);
    if k == LastPage(|items|, totals) {
      assert items[..|items|] == items;
    }
  }

  lemma {:induction false} SameAllAlong(read: nat -> Option<set<SpotifyId>>, k: nat)
    requires forall j: nat :: j < k ==> read(j) == read(j + 1)
    ensures read(0) == read(k)
  {
    if k > 0 {
      SameAllAlong(read, k - 1);
    }
  }

  /** Up to a page all of whose predecessors were had, the read is that page's. */
  lemma ReadsUpTo(server: nat -> Option<Page>, items: seq<Option<SpotifyId>>, totals: bool, k: nat)
    requires k <= 1001 && k <= LastPage(|items|, totals)
    requires forall j: nat :: j < k ==> server(100 * j) == Holding(items, totals)(100 * j)
    ensures ReadFrom(server, 0, {}) == ReadOn(server, items, k)
  {
    var read := (j: nat) => if j <= 1001 then ReadOn(server, items, j) else None;
    forall j: nat | j < k
      ensures read(j) == read(j + 1)
    {
      ReadsOn(server, items, totals, j);
    }
    SameAllAlong(read, k);
    assert Ids(items[..0]) == {};
    assert read(0) == ReadOn(server, items, 0) && read(k) == ReadOn(server, items, k);
  }

  lemma PastTheBound(server: nat -> Option<Page>, items: seq<Option<SpotifyId>>)
    ensures ReadOn(server, items, 1001) == None
  {
  }

  lemma NoSuchPage(server: nat -> Option<Page>, items: seq<Option<SpotifyId>>, k: nat)
    requires k <= 1000 && server(100 * k) == None
    ensures ReadOn(server, items, k) == None
  {
  }

  /** With every page there, the read ends on the last one, or past the bound. */
  lemma HeldIsRead(server: nat -> Option<Page>, items: seq<Option<SpotifyId>>, totals: bool)
    requires forall j: nat :: j <= 1000 && j <= LastPage(|items|, totals) ==>
               server(100 * j) == Holding(items, totals)(100 * j)
    ensures ReadFrom(server, 0, {}) == if |items| <= Longest(totals) then Some(Ids(items)) else None
  {
    var last := LastPage(|items|, totals);
    if last <= 1000 {
      ReadsUpTo(server, items, totals, last);
      ReadsOn(server, items, totals, last);
    } else {
      ReadsUpTo(server, items, totals, 1001);
      PastTheBound(server, items);
    }
  }

  // ---------- the results ----------

  /** Against a playlist that stays put, the read is exact, and it fails
      exactly on playlists longer than the offset bound allows. */
  lemma PlaylistReadIsExact(items: seq<Option<SpotifyId>>, totals: bool)
    ensures ReadFrom(Holding(items, totals), 0, {}) ==
            if |items| <= Longest(totals) then Some(Ids(items)) else None
  {
    HeldIsRead(Holding(items, totals), items, totals);
  }

  lemma {:induction false} FirstFailure(fails: nat -> bool, k: nat) returns (first: nat)
    requires fails(100 * k)
    ensures first <= k && fails(100 * first) && forall j: nat :: j < first ==> !fails(100 * j)
    decreases k
  {
    first := k;
    if j: nat :| j < k && fails(100 * j) {
      first := FirstFailure(fails, j);
    }
  }

  /** A read in which some page it asks for fails, fails as a whole: no part of a
      playlist is taken for all of it. Otherwise it is exact, up to 100 100
      items, or one less without totals. */
  lemma PlaylistReadFailsExactlyWhen(items: seq<Option<SpotifyId>>, totals: bool, fails: nat -> bool)
    ensures ReadFrom(Failing(items, totals, fails), 0, {}) ==
            if |items| <= (if totals then 100_100 else 100_099)
               && (forall k: nat :: k <= 1000 && k <= LastPage(|items|, totals) ==> !fails(100 * k))
            then Some(Ids(items)) else None
  {
    var server := Failing(items, totals, fails);
    if k: nat :| k <= 1000 && k <= LastPage(|items|, totals) && fails(100 * k) {
      var first := FirstFailure(fails, k);
      ReadsUpTo(server, items, totals, first);
      NoSuchPage(server, items, first);
    } else {
      HeldIsRead(server, items, totals);
    }
  }
}
