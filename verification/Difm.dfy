/** The DI.fm client: turning vote records into likes, and walking the
    paginated vote list with an early stop. */
module Difm {
  import opened Common

  const MAX_PAGES := 200
  const MAX_TRACK_LENGTH := 900

  /** Text fields are held as strings.TrimSpace leaves them: the client looks
      at none of them untrimmed. */
  datatype WireTrack = WireTrack(
    id: int, title: string, displayTitle: string, displayArtist: string,
    length: int, mix: bool, isrc: string)

  /** One decoded record. createdAt is None when the timestamp text does not
      parse. */
  datatype Wire = Wire(
    id: int, trackId: int, createdAt: Option<Time>, up: bool,
    episode: bool, track: Option<WireTrack>)

  /** One record as it arrives: undecodable, with the id recovered from it (0
      when even that failed), or decoded. */
  datatype Row = Garbled(ident: int) | Decoded(wire: Wire)

  datatype Track = Track(
    voteId: int, trackId: int, artist: string, title: string,
    durationSec: int, isrc: string, likedAt: Time, skip: bool)

  datatype Verdict = RowOk(track: Track) | RowFiltered | RowDropped

  function FirstNonZero(a: int, b: int): int {
    if a != 0 then a else b
  }

  /** wire.normalize: usable, legitimately not a like, or unreadable. */
  function Normalize(w: Wire): Verdict {
    if w.track.None? || !w.up then RowFiltered
    else
      var wt := w.track.value;
      var title := if wt.displayTitle == "" then wt.title else wt.displayTitle;
      var trackId := FirstNonZero(w.trackId, wt.id);
      if trackId == 0 || title == "" || w.createdAt.None? then RowDropped
      else RowOk(Track(w.id, trackId, wt.displayArtist, title, wt.length,
                       wt.isrc, w.createdAt.value,
                       w.episode || wt.mix || wt.length > MAX_TRACK_LENGTH))
  }

  /** A record that does not decode counts as dropped, like one that decodes
      into something unusable. */
  function Judge(row: Row): Verdict {
    match row
    case Garbled(_) => RowDropped
    case Decoded(w) => Normalize(w)
  }

  function RowId(row: Row): int {
    match row
    case Garbled(ident) => ident
    case Decoded(w) => w.id
  }

  datatype PageResult = PageResult(tracks: seq<Track>, voteIds: seq<int>, rows: nat, dropped: nat)

  function PageOf(rows: seq<Row>): (p: PageResult)
    ensures p.rows == |rows|
  {
    if rows == [] then PageResult([], [], 0, 0)
    else
      var p := PageOf(Front(rows));
      var row := Last(rows);
      PageResult(
        if Judge(row).RowOk? then p.tracks + [Judge(row).track] else p.tracks,
        if RowId(row) != 0 then p.voteIds + [RowId(row)] else p.voteIds,
        p.rows + 1,
        if Judge(row).RowDropped? then p.dropped + 1 else p.dropped)
  }

  method FetchPage(rows: seq<Row>) returns (p: PageResult)
    ensures p == PageOf(rows)
  {
    var tracks: seq<Track>, voteIds: seq<int>, dropped: nat := [], [], 0;
    for i := 0 to |rows|
      invariant PageResult(tracks, voteIds, i, dropped) == PageOf(rows[..i])
    {
      var row := rows[i];
      assert Front(rows[..i + 1]) == rows[..i] && Last(rows[..i + 1]) == row;
      match row
      case Garbled(ident) =>
        dropped := dropped + 1;
        if ident != 0 {
          voteIds := voteIds + [ident];
        }
      case Decoded(w) =>
        if w.id != 0 {
          voteIds := voteIds + [w.id];
        }
        match Normalize(w)
        case RowOk(t) => tracks := tracks + [t];
        case RowDropped => dropped := dropped + 1;
        case RowFiltered =>
    }
    assert rows[..|rows|] == rows;
    p := PageResult(tracks, voteIds, |rows|, dropped);
  }

  datatype Fault = Unauthorized | RateLimited | Broken | Killed

  datatype PageReply = Page(rows: seq<Row>) | NoPage(fault: Fault)

  datatype WalkEnd = Complete | Dropped | Truncated | Failed(fault: Fault)

  datatype WalkResult = WalkResult(tracks: seq<Track>, end: WalkEnd)

  /** Whether a like passes the strict watermark filter. */
  predicate Newer(t: Track, since: Time) {
    since == UNSET || t.likedAt > since
  }

  /** The candidates of a page: its usable records under an id this walk had
      not met before the page. */
  function Fresh(tracks: seq<Track>, news: set<int>): seq<Track> {
    if tracks == [] then []
    else Fresh(Front(tracks), news) + if Last(tracks).voteId in news then [Last(tracks)] else []
  }

  function KeepNewer(tracks: seq<Track>, since: Time): seq<Track> {
    if tracks == [] then []
    else KeepNewer(Front(tracks), since) + if Newer(Last(tracks), since) then [Last(tracks)] else []
  }

  /** What a page adds to a walk that has met some ids: the ids new to it, the
      candidates under them, those newer than the watermark, and the drops. */
  datatype Contribution = Contribution(news: set<int>, considered: seq<Track>, kept: seq<Track>, lost: nat) {
    predicate Stops(since: Time) {
      news == {} || (since != UNSET && considered != [] && kept == [])
    }
  }

  function Contribute(p: PageResult, seen: set<int>, since: Time): Contribution {
    var news := Elements(p.voteIds) - seen;
    var considered := Fresh(p.tracks, news);
    Contribution(news, considered, KeepNewer(considered, since), p.dropped)
  }

  /** What a walk has gathered so far. */
  datatype Walked = Walked(seen: set<int>, out: seq<Track>, dropped: nat) {
    function Take(c: Contribution): Walked {
      Walked(seen + c.news, out + c.kept, dropped + c.lost)
    }

    function Finish(complete: bool): WalkResult {
      WalkResult(Reversed(out), if !complete then Truncated else if dropped > 0 then Dropped else Complete)
    }
  }

  /** The walk from a given page on, for any server whatever. */
  function WalkFrom(server: nat -> PageReply, since: Time, page: nat, w: Walked): WalkResult
    decreases MAX_PAGES + 1 - page
  {
    if page > MAX_PAGES then w.Finish(false)
    else match server(page)
      case NoPage(fault) => WalkResult([], Failed(fault))
      case Page(rows) =>
        var p := PageOf(rows);
        if p.rows == 0 then w.(dropped := w.dropped + p.dropped).Finish(true)
        else
          var c := Contribute(p, w.seen, since);
          if c.Stops(since) then w.Take(c).Finish(true) else WalkFrom(server, since, page + 1, w.Take(c))
  }

  function Walk(server: nat -> PageReply, since: Time): WalkResult {
    WalkFrom(server, since, 1, Walked({}, [], 0))
  }

  lemma WalkEmptyPage(server: nat -> PageReply, since: Time, page: nat, w: Walked)
    requires page <= MAX_PAGES && server(page) == Page([])
    ensures WalkFrom(server, since, page, w) == w.Finish(true)
  {
  }

  lemma WalkTurn(server: nat -> PageReply, since: Time, page: nat, rows: seq<Row>, w: Walked, c: Contribution)
    requires page <= MAX_PAGES && server(page) == Page(rows) && rows != []
    requires c == Contribute(PageOf(rows), w.seen, since)
    ensures WalkFrom(server, since, page, w) ==
            if c.Stops(since) then w.Take(c).Finish(true) else WalkFrom(server, since, page + 1, w.Take(c))
  {
  }

  method ReverseBySwaps(s: seq<Track>) returns (out: seq<Track>)
    ensures out == Reversed(s)
  {
    out := s;
    var i, j := 0, |s| - 1;
    while i < j
      invariant 0 <= i <= |s| && j == |s| - 1 - i && i <= j + 2 && |out| == |s|
      invariant forall k :: 0 <= k < i || j < k < |s| ==> out[k] == s[|s| - 1 - k]
      invariant forall k :: i <= k <= j ==> out[k] == s[k]
    {
      out := out[i := out[j]][j := out[i]];
      i, j := i + 1, j - 1;
    }
  }

  method MarkSeen(voteIds: seq<int>, seen: set<int>) returns (seen': set<int>, news: set<int>)
    ensures news == Elements(voteIds) - seen && seen' == seen + news
  {
    seen', news := seen, {};
    for i := 0 to |voteIds|
      invariant news == Elements(voteIds[..i]) - seen && seen' == seen + news
    {
      var id := voteIds[i];
      assert voteIds[..i + 1] == voteIds[..i] + [id];
      if id !in seen' {
        seen', news := seen' + {id}, news + {id};
      }
    }
    assert voteIds[..|voteIds|] == voteIds;
  }

  method KeepFromPage(tracks: seq<Track>, news: set<int>, since: Time, out: seq<Track>)
    returns (out': seq<Track>, considered: nat, kept: nat)
    ensures out' == out + KeepNewer(Fresh(tracks, news), since)
    ensures considered == |Fresh(tracks, news)| && kept == |KeepNewer(Fresh(tracks, news), since)|
  {
    out', considered, kept := out, 0, 0;
    for i := 0 to |tracks|
      invariant out' == out + KeepNewer(Fresh(tracks[..i], news), since)
      invariant considered == |Fresh(tracks[..i], news)|
      invariant kept == |KeepNewer(Fresh(tracks[..i], news), since)|
    {
      var t := tracks[i];
      assert Front(tracks[..i + 1]) == tracks[..i] && Last(tracks[..i + 1]) == t;
      if t.voteId in news {
        ghost var before := Fresh(tracks[..i], news);
        assert Front(before + [t]) == before;
        considered := considered + 1;
        if Newer(t, since) {
          kept := kept + 1;
          out' := out' + [t];
        }
      } else {
        assert Fresh(tracks[..i + 1], news) == Fresh(tracks[..i], news);
      }
    }
    assert tracks[..|tracks|] == tracks;
  }

  method ListLikedTracks(server: nat -> PageReply, since: Time) returns (r: WalkResult, asked: nat)
    ensures r == Walk(server, since)
    ensures asked <= MAX_PAGES
  {
    var out: seq<Track>, seen: set<int>, dropped: nat, complete := [], {}, 0, false;
    var page := 1;
    asked := 0;
    while page <= MAX_PAGES && !complete
      invariant 1 <= page <= MAX_PAGES + 1 && asked <= MAX_PAGES && (!complete ==> asked == page - 1)
      invariant Walk(server, since) ==
        if complete then Walked(seen, out, dropped).Finish(true)
        else WalkFrom(server, since, page, Walked(seen, out, dropped))
      decreases MAX_PAGES + 1 - page, !complete
    {
      asked := asked + 1;
      match server(page)
      case NoPage(fault) =>
        return WalkResult([], Failed(fault)), asked;
      case Page(rows) =>
        var p := FetchPage(rows);
        dropped := dropped + p.dropped;
        if p.rows == 0 {
          complete := true;
        } else {
          ghost var w := Walked(seen, out, dropped - p.dropped);
          var news, considered, kept;
          seen, news := MarkSeen(p.voteIds, seen);
          out, considered, kept := KeepFromPage(p.tracks, news, since, out);
          WalkTurn(server, since, page, rows, w, Contribute(p, w.seen, since));
          assert Walked(seen, out, dropped) == w.Take(Contribute(p, w.seen, since));
          if news == {} || (since != UNSET && considered > 0 && kept == 0) {
            complete := true;
          } else {
            page := page + 1;
          }
        }
    }
    var reversed := ReverseBySwaps(out);
    r := WalkResult(reversed, if !complete then Truncated else if dropped > 0 then Dropped else Complete);
  }
}
