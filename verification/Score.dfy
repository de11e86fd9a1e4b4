/** The matcher's score over the reals, from parsed tracks on. */
module Score {
  import opened Common
  import opened EditDistance

  datatype Kind = Unknown | Original | Extended | Radio | Remix | Instrumental | Live | Acoustic

  datatype Version = Version(kind: Kind, remixer: string)

  datatype Song = Song(artists: seq<string>, title: string, version: Version)

  const WEIGHT_TITLE := 0.40
  const WEIGHT_ARTIST := 0.30
  const WEIGHT_VERSION := 0.20
  const WEIGHT_DURATION := 0.10
  const HARD_CONFLICT_PENALTY := 0.75
  const PLAUSIBLE := 0.7
  const AUTO_DEFAULT := 0.85

  // ---------- similarity of two names ----------

  function Ratio(a: string, b: string): real {
    if a == "" || b == "" then 0.0
    else if a == b then 1.0
    else 1.0 - Dist(a, b) as real / Max(|a|, |b|) as real
  }

  lemma RatioMeans(a: string, b: string)
    ensures 0.0 <= Ratio(a, b) <= 1.0
    ensures Ratio(a, b) == Ratio(b, a)
    ensures Ratio(a, b) == 1.0 <==> a == b && a != ""
  {
    DistSymmetric(a, b);
    DistZeroIsEqual(a, b);
    DistBounds(a, b);
    if a != "" && b != "" && a != b {
      FractionBounds(Dist(a, b), Max(|a|, |b|));
    }
  }

  lemma FractionBounds(d: nat, n: nat)
    requires 0 < d <= n
    ensures 0.0 < d as real / n as real <= 1.0
  {
  }

  // ---------- versions ----------

  /** named is the remixer an unconfirmed remix is reported with. */
  datatype VersionVerdict = VersionVerdict(score: real, conflict: bool, named: Option<string>)

  predicate Pair(a: Kind, b: Kind, x: Kind, y: Kind) {
    (a == x && b == y) || (a == y && b == x)
  }

  function VersionScore(a: Version, b: Version): VersionVerdict {
    if a.kind == b.kind then
      if a.kind == Remix && a.remixer != "" && b.remixer != "" && Ratio(a.remixer, b.remixer) < 0.8 then
        VersionVerdict(Ratio(a.remixer, b.remixer) * 0.3, true, None)
      else if a.kind == Remix && (a.remixer != "") != (b.remixer != "") then
        VersionVerdict(0.55, true, Some(if a.remixer == "" then b.remixer else a.remixer))
      else VersionVerdict(1.0, false, None)
    else if a.kind == Unknown || b.kind == Unknown then
      VersionVerdict(if Pair(a.kind, b.kind, Unknown, Original) then 0.85 else 0.55, false, None)
    else if a.kind == Remix || b.kind == Remix then VersionVerdict(0.10, true, None)
    else if Pair(a.kind, b.kind, Radio, Extended) then VersionVerdict(0.0, true, None)
    else if Pair(a.kind, b.kind, Original, Extended) then VersionVerdict(0.45, true, None)
    else if Pair(a.kind, b.kind, Original, Radio) then VersionVerdict(0.35, true, None)
    else if Pair(a.kind, b.kind, Live, Original) || Pair(a.kind, b.kind, Live, Extended)
         || Pair(a.kind, b.kind, Acoustic, Original) || Pair(a.kind, b.kind, Instrumental, Original) then
      VersionVerdict(0.15, true, None)
    else VersionVerdict(0.3, true, None)
  }

  /** Version verdicts do not depend on the order of the two sides. They agree
      fully exactly when nothing tells the versions apart, and short of that
      they conflict unless one side's version is unknown. */
  lemma VersionScoreMeans(a: Version, b: Version)
    ensures VersionScore(a, b) == VersionScore(b, a)
    ensures 0.0 <= VersionScore(a, b).score <= 1.0
    ensures VersionScore(a, b).score == 1.0 <==>
            a.kind == b.kind
            && (a.kind == Remix ==> a.remixer == b.remixer == "" || Ratio(a.remixer, b.remixer) >= 0.8)
    ensures VersionScore(a, b).conflict <==>
            VersionScore(a, b).score != 1.0 && (a.kind == b.kind || (a.kind != Unknown && b.kind != Unknown))
    ensures VersionScore(a, a) == VersionVerdict(1.0, false, None)
  {
    RatioMeans(a.remixer, b.remixer);
    RatioMeans(a.remixer, a.remixer);
  }

  // ---------- artists ----------

  function Best(name: string, got: seq<string>): real {
    if got == [] then 0.0
    else
      var best, r := Best(name, Front(got)), Ratio(name, Last(got));
      if r > best then r else best
  }

  function Total(want: seq<string>, got: seq<string>): real {
    if want == [] then 0.0 else Total(Front(want), got) + Best(Last(want), got)
  }

  function ArtistSimilarity(want: seq<string>, got: seq<string>): real {
    if want == [] || got == [] then 0.0
    else
      var score := Total(want, got) / |want| as real;
      if |got| > |want| then score * 0.97 else score
  }

  method ComputeArtistSimilarity(want: seq<string>, got: seq<string>) returns (score: real)
    ensures score == ArtistSimilarity(want, got)
  {
    if |want| == 0 || |got| == 0 {
      return 0.0;
    }
    var total := 0.0;
    for i := 0 to |want|
      invariant total == Total(want[..i], got)
    {
      var best := 0.0;
      for j := 0 to |got|
        invariant best == Best(want[i], got[..j])
      {
        assert Front(got[..j + 1]) == got[..j] && Last(got[..j + 1]) == got[j];
        var r := Ratio(want[i], got[j]);
        if r > best {
          best := r;
        }
      }
      assert got[..|got|] == got;
      assert Front(want[..i + 1]) == want[..i] && Last(want[..i + 1]) == want[i];
      total := total + best;
    }
    assert want[..|want|] == want;
    score := total / |want| as real;
    if |got| > |want| {
      score := score * 0.97;
    }
  }

  /** Best is the maximum of the ratios, and of 0. */
  lemma {:induction false} BestMeans(name: string, got: seq<string>)
    ensures 0.0 <= Best(name, got) <= 1.0
    ensures forall g :: g in got ==> Ratio(name, g) <= Best(name, got)
    ensures Best(name, got) == 0.0 || exists g :: g in got && Ratio(name, g) == Best(name, got)
    ensures Best(name, got) == 1.0 <==> name != "" && name in got
  {
    if got != [] {
      var front, last := Front(got), Last(got);
      assert got == front + [last];
      BestMeans(name, front);
      RatioMeans(name, last);
    }
  }

  lemma BestOfSameNames(name: string, got: seq<string>, got': seq<string>)
    requires forall g :: g in got <==> g in got'
    ensures Best(name, got) == Best(name, got')
  {
    BestMeans(name, got);
    BestMeans(name, got');
  }

  lemma {:induction false} TotalOfSameNames(want: seq<string>, got: seq<string>, got': seq<string>)
    requires forall g :: g in got <==> g in got'
    ensures Total(want, got) == Total(want, got')
  {
    if want != [] {
      TotalOfSameNames(Front(want), got, got');
      BestOfSameNames(Last(want), got, got');
    }
  }

  lemma {:induction false} TotalWithout(want: seq<string>, i: nat, got: seq<string>)
    requires i < |want|
    ensures Total(want, got) == Total(want[..i] + want[i + 1..], got) + Best(want[i], got)
  {
    if i == |want| - 1 {
      assert want[..i] + want[i + 1..] == Front(want);
    } else {
      var rest := want[..i] + want[i + 1..];
      assert Front(rest) == Front(want)[..i] + Front(want)[i + 1..] && Last(rest) == Last(want);
      TotalWithout(Front(want), i, got);
    }
  }

  lemma SplitOff(s: seq<string>, i: nat)
    requires i < |s|
    ensures multiset(s) == multiset(s[..i] + s[i + 1..]) + multiset{s[i]}
  {
    assert s == s[..i] + ([s[i]] + s[i + 1..]);
  }

  lemma {:induction false} TotalOfPermutation(want: seq<string>, want': seq<string>, got: seq<string>)
    requires multiset(want) == multiset(want')
    ensures Total(want, got) == Total(want', got)
  {
    if want == [] {
      assert want' == [];
    } else {
      var last := Last(want);
      assert want == Front(want) + [last];
      assert last in multiset(want');
      var i :| 0 <= i < |want'| && want'[i] == last;
      var rest := want'[..i] + want'[i + 1..];
      SplitOff(want', i);
      SplitOff(want, |want| - 1);
      assert want[..|want| - 1] + want[|want|..] == Front(want);
      assert multiset(Front(want)) == (multiset(Front(want)) + multiset{last}) - multiset{last};
      assert multiset(rest) == (multiset(rest) + multiset{last}) - multiset{last};
      TotalOfPermutation(Front(want), rest, got);
      TotalWithout(want', i, got);
    }
  }

  /** Artist similarity depends only on the two multisets of names. */
  lemma ArtistOrderDoesNotMatter(want: seq<string>, want': seq<string>, got: seq<string>, got': seq<string>)
    requires multiset(want) == multiset(want') && multiset(got) == multiset(got')
    ensures ArtistSimilarity(want, got) == ArtistSimilarity(want', got')
  {
    assert |want| == |multiset(want)| == |want'| && |got| == |multiset(got)| == |got'|;
    assert forall g :: g in got <==> g in multiset(got');
    TotalOfPermutation(want, want', got);
    TotalOfSameNames(want', got, got');
  }

  lemma {:induction false} TotalBounds(want: seq<string>, got: seq<string>)
    ensures 0.0 <= Total(want, got) <= |want| as real
  {
    if want != [] {
      TotalBounds(Front(want), got);
      BestMeans(Last(want), got);
      assert |want| as real == |Front(want)| as real + 1.0;
    }
  }

  predicate AllFound(want: seq<string>, got: seq<string>) {
    forall n :: n in want ==> n != "" && n in got
  }

  lemma {:induction false} TotalIsFullWhenAllFound(want: seq<string>, got: seq<string>)
    ensures Total(want, got) == |want| as real <==> AllFound(want, got)
  {
    if want != [] {
      var front, last := Front(want), Last(want);
      TotalIsFullWhenAllFound(front, got);
      TotalBounds(front, got);
      BestMeans(last, got);
      assert |want| as real == |front| as real + 1.0;
      AllFoundOfLonger(front, last, got);
      assert want == front + [last];
    }
  }

  lemma AllFoundOfLonger(front: seq<string>, last: string, got: seq<string>)
    ensures AllFound(front + [last], got) <==> AllFound(front, got) && last != "" && last in got
  {
    assert last in front + [last];
    assert forall n :: n in front ==> n in front + [last];
  }

  lemma ProductIsPositive(x: real, m: real)
    requires x > 0.0 && m > 0.0
    ensures x * m > 0.0
  {
  }

  lemma DifferenceTimes(x: real, y: real, m: real)
    ensures (x - y) * m == x * m - y * m
  {
  }

  lemma QuotientBounds(total: real, m: real, q: real)
    requires m > 0.0 && 0.0 <= total <= m && q * m == total
    ensures 0.0 <= q <= 1.0
    ensures q == 1.0 <==> total == m
  {
    DifferenceTimes(0.0, q, m);
    DifferenceTimes(q, 1.0, m);
    DifferenceTimes(1.0, q, m);
    if q < 0.0 {
      ProductIsPositive(0.0 - q, m);
    } else if q > 1.0 {
      ProductIsPositive(q - 1.0, m);
    } else if q < 1.0 {
      ProductIsPositive(1.0 - q, m);
    }
  }

  lemma AverageBounds(total: real, n: nat)
    requires n > 0 && 0.0 <= total <= n as real
    ensures 0.0 <= total / n as real <= 1.0
    ensures total / n as real == 1.0 <==> total == n as real
  {
    QuotientBounds(total, n as real, total / n as real);
  }

  /** A perfect artist score means that every wanted name is non-empty and
      found, and the other side names no more artists; a permutation of
      non-empty names is one such case. */
  lemma ArtistSimilarityMeans(want: seq<string>, got: seq<string>)
    ensures 0.0 <= ArtistSimilarity(want, got) <= 1.0
    ensures ArtistSimilarity(want, got) == 1.0 <==>
            0 < |got| <= |want| && AllFound(want, got)
  {
    TotalBounds(want, got);
    TotalIsFullWhenAllFound(want, got);
    if want != [] {
      AverageBounds(Total(want, got), |want|);
    }
  }

  lemma PermutedArtistsScoreOne(want: seq<string>, got: seq<string>)
    requires multiset(want) == multiset(got) && want != [] && "" !in want
    ensures ArtistSimilarity(want, got) == 1.0
  {
    assert |want| == |multiset(want)| == |got|;
    assert forall n :: n in want ==> n in multiset(got);
    ArtistSimilarityMeans(want, got);
  }

  // ---------- the whole score ----------

  function ArtistGate(sim: real): real {
    if sim >= PLAUSIBLE then 1.0 else 0.45 + sim / PLAUSIBLE * 0.55
  }

  function Abs(x: int): nat {
    if x < 0 then -x else x
  }

  function DurationScore(a: int, b: int): real {
    var d := Abs(a - b);
    if d <= 3 then 1.0 else if d >= 60 then 0.0 else 1.0 - (d - 3) as real / 57.0
  }

  function Clamp01(f: real): real {
    if f < 0.0 then 0.0 else if f > 1.0 then 1.0 else f
  }

  predicate Known(wantDur: int, gotDur: int) {
    wantDur > 0 && gotDur > 0
  }

  /** The weighted mean of the components that are known. */
  function Mean(title: real, artist: real, version: real, duration: Option<real>): real {
    var num := WEIGHT_TITLE * title + WEIGHT_ARTIST * artist + WEIGHT_VERSION * version;
    var den := WEIGHT_TITLE + WEIGHT_ARTIST + WEIGHT_VERSION;
    match duration
    case None => num / den
    case Some(d) => (num + WEIGHT_DURATION * d) / (den + WEIGHT_DURATION)
  }

  function Duration(wantDur: int, gotDur: int): Option<real> {
    if Known(wantDur, gotDur) then Some(DurationScore(wantDur, gotDur)) else None
  }

  function Penalize(score: real, conflict: bool): real {
    if conflict then score * HARD_CONFLICT_PENALTY else score
  }

  /** The gated and penalized mean, before clamping. */
  function Weigh(mean: real, gate: real, conflict: bool): real {
    Penalize(mean * gate, conflict)
  }

  function MeanOf(want: Song, wantDur: int, got: Song, gotDur: int): real {
    Mean(Ratio(want.title, got.title), ArtistSimilarity(want.artists, got.artists),
         VersionScore(want.version, got.version).score, Duration(wantDur, gotDur))
  }

  function Unclamped(want: Song, wantDur: int, got: Song, gotDur: int): real {
    Weigh(MeanOf(want, wantDur, got, gotDur), ArtistGate(ArtistSimilarity(want.artists, got.artists)),
          VersionScore(want.version, got.version).conflict)
  }

  function ScoreOf(want: Song, wantDur: int, got: Song, gotDur: int): real {
    Clamp01(Unclamped(want, wantDur, got, gotDur))
  }

  // ---------- what a score means ----------

  predicate Unit(x: real) {
    0.0 <= x <= 1.0
  }

  predicate UnitOption(d: Option<real>) {
    d.Some? ==> Unit(d.value)
  }

  lemma MeanMeans(t: real, a: real, v: real, d: Option<real>)
    requires Unit(t) && Unit(a) && Unit(v) && UnitOption(d)
    ensures Unit(Mean(t, a, v, d))
    ensures Mean(t, a, v, d) == 1.0 <==> t == a == v == 1.0 && (d.Some? ==> d.value == 1.0)
    ensures Mean(t, a, v, d) >= 0.85 ==> t >= 0.625
    ensures d.Some? ==> Mean(t, a, v, d) <= 0.4 + 0.3 * a + 0.2 * v + 0.1 * d.value
    ensures Mean(t, a, v, d) <= 0.7 + 0.3 * a
  {
  }

  lemma GateMeans(a: real)
    requires Unit(a)
    ensures 0.45 <= ArtistGate(a) <= 1.0
    ensures ArtistGate(a) == 1.0 <==> a >= PLAUSIBLE
    ensures a <= 0.64 ==> ArtistGate(a) <= 0.9529
  {
  }

  lemma ProductBounds(x: real, y: real)
    requires 0.0 <= x && Unit(y)
    ensures 0.0 <= x * y <= x
    ensures x == 1.0 ==> x * y == y
  {
  }

  lemma ProductAtMost(x: real, y: real, xMax: real, yMax: real)
    requires 0.0 <= x <= xMax && 0.0 <= y <= yMax
    ensures x * y <= xMax * yMax
  {
    assert x * y <= xMax * y;
    assert xMax * y <= xMax * yMax;
  }

  lemma PenalizeBounds(score: real, mean: real, gate: real, conflict: bool)
    requires Unit(mean) && Unit(gate) && 0.0 <= score <= mean && score <= gate
    requires mean == gate == 1.0 ==> score == 1.0
    requires mean <= 0.892 && gate <= 0.9529 ==> score < AUTO_DEFAULT
    ensures WeighedWithin(Penalize(score, conflict), mean, gate, conflict)
  {
  }

  predicate WeighedWithin(score: real, mean: real, gate: real, conflict: bool) {
    && Unit(score) && score <= mean
    && (conflict ==> score <= HARD_CONFLICT_PENALTY)
    && (score == 1.0 <==> mean == gate == 1.0 && !conflict)
    && (mean <= 0.892 && gate <= 0.9529 ==> score < AUTO_DEFAULT)
  }

  lemma WeighBounds(mean: real, gate: real, conflict: bool)
    requires Unit(mean) && Unit(gate)
    ensures WeighedWithin(Weigh(mean, gate, conflict), mean, gate, conflict)
  {
    ProductBounds(mean, gate);
    ProductBounds(gate, mean);
    assert mean * gate == gate * mean;
    if mean <= 0.892 && gate <= 0.9529 {
      ProductAtMost(mean, gate, 0.892, 0.9529);
    }
    PenalizeBounds(mean * gate, mean, gate, conflict);
  }

  /** The components of a comparison, their mean and the gate are all in the
      unit interval. */
  lemma ComponentBounds(want: Song, wantDur: int, got: Song, gotDur: int)
    ensures Unit(Ratio(want.title, got.title)) && Unit(ArtistSimilarity(want.artists, got.artists))
    ensures Unit(VersionScore(want.version, got.version).score) && UnitOption(Duration(wantDur, gotDur))
    ensures Unit(MeanOf(want, wantDur, got, gotDur)) && Unit(ArtistGate(ArtistSimilarity(want.artists, got.artists)))
  {
    RatioMeans(want.title, got.title);
    ArtistSimilarityMeans(want.artists, got.artists);
    VersionScoreMeans(want.version, got.version);
    MeanMeans(Ratio(want.title, got.title), ArtistSimilarity(want.artists, got.artists),
              VersionScore(want.version, got.version).score, Duration(wantDur, gotDur));
    GateMeans(ArtistSimilarity(want.artists, got.artists));
  }

  lemma UnclampedBounds(want: Song, wantDur: int, got: Song, gotDur: int)
    ensures WeighedWithin(Unclamped(want, wantDur, got, gotDur), MeanOf(want, wantDur, got, gotDur),
                          ArtistGate(ArtistSimilarity(want.artists, got.artists)),
                          VersionScore(want.version, got.version).conflict)
  {
    ComponentBounds(want, wantDur, got, gotDur);
    WeighBounds(MeanOf(want, wantDur, got, gotDur), ArtistGate(ArtistSimilarity(want.artists, got.artists)),
                VersionScore(want.version, got.version).conflict);
  }

  /** Every score is in [0, 1] already before clamping. */
  lemma ScoreIsInUnitInterval(want: Song, wantDur: int, got: Song, gotDur: int)
    ensures Unit(Unclamped(want, wantDur, got, gotDur))
    ensures ScoreOf(want, wantDur, got, gotDur) == Unclamped(want, wantDur, got, gotDur)
  {
    UnclampedBounds(want, wantDur, got, gotDur);
  }

  /** A song scores 1 against another exactly when titles agree and are not
      empty, artists match perfectly, versions agree and runtimes, where known,
      are within three seconds. */
  lemma PerfectScoreMeans(want: Song, wantDur: int, got: Song, gotDur: int)
    ensures ScoreOf(want, wantDur, got, gotDur) == 1.0 <==>
            && want.title == got.title && want.title != ""
            && ArtistSimilarity(want.artists, got.artists) == 1.0
            && VersionScore(want.version, got.version).score == 1.0
            && (Known(wantDur, gotDur) ==> Abs(wantDur - gotDur) <= 3)
  {
    ComponentBounds(want, wantDur, got, gotDur);
    UnclampedBounds(want, wantDur, got, gotDur);
    RatioMeans(want.title, got.title);
    VersionScoreMeans(want.version, got.version);
    MeanMeans(Ratio(want.title, got.title), ArtistSimilarity(want.artists, got.artists),
              VersionScore(want.version, got.version).score, Duration(wantDur, gotDur));
    GateMeans(ArtistSimilarity(want.artists, got.artists));
  }

  /** A song against itself scores exactly 1, unless its title, its artist
      list or one of its artists' names is empty. */
  lemma SelfScoreIsOneExactlyWhen(s: Song, dur: int)
    ensures ScoreOf(s, dur, s, dur) == 1.0 <==> s.title != "" && s.artists != [] && "" !in s.artists
  {
    PerfectScoreMeans(s, dur, s, dur);
    ArtistSimilarityMeans(s.artists, s.artists);
    VersionScoreMeans(s.version, s.version);
  }

  /** A score good enough to add without asking rules out a version conflict
      and bounds the title and artist similarity from below. */
  lemma AutoAddMeans(want: Song, wantDur: int, got: Song, gotDur: int)
    requires ScoreOf(want, wantDur, got, gotDur) >= AUTO_DEFAULT
    ensures !VersionScore(want.version, got.version).conflict
    ensures Ratio(want.title, got.title) >= 0.625
    ensures ArtistSimilarity(want.artists, got.artists) > 0.64
  {
    ComponentBounds(want, wantDur, got, gotDur);
    UnclampedBounds(want, wantDur, got, gotDur);
    MeanMeans(Ratio(want.title, got.title), ArtistSimilarity(want.artists, got.artists),
              VersionScore(want.version, got.version).score, Duration(wantDur, gotDur));
    GateMeans(ArtistSimilarity(want.artists, got.artists));
  }

  predicate UnknownAgainstSpecial(a: Version, b: Version) {
    a.kind != b.kind && (a.kind == Unknown || b.kind == Unknown) && a.kind != Original && b.kind != Original
  }

  /** When one side's version is unknown and the other's is a special one, the
      runtimes, if known, must be within 37 seconds. */
  lemma AutoAddBoundsRuntime(want: Song, wantDur: int, got: Song, gotDur: int)
    requires ScoreOf(want, wantDur, got, gotDur) >= AUTO_DEFAULT
    requires Known(wantDur, gotDur) && UnknownAgainstSpecial(want.version, got.version)
    ensures Abs(wantDur - gotDur) <= 37
  {
    ComponentBounds(want, wantDur, got, gotDur);
    UnclampedBounds(want, wantDur, got, gotDur);
    MeanMeans(Ratio(want.title, got.title), ArtistSimilarity(want.artists, got.artists),
              VersionScore(want.version, got.version).score, Duration(wantDur, gotDur));
    GateMeans(ArtistSimilarity(want.artists, got.artists));
  }

  /** The bound on runtimes is attained. */
  lemma RuntimeBoundIsTight()
    ensures exists want: Song, got: Song :: UnknownAgainstSpecial(want.version, got.version)
                             && ScoreOf(want, 200, got, 237) >= AUTO_DEFAULT
  {
    var want := Song(["a"], "t", Version(Unknown, ""));
    var got := Song(["a"], "t", Version(Radio, ""));
    RatioMeans("t", "t");
    ArtistSimilarityMeans(["a"], ["a"]);
    UnclampedBounds(want, 200, got, 237);
    assert DurationScore(200, 237) >= 0.4;
    assert UnknownAgainstSpecial(want.version, got.version);
  }
}
