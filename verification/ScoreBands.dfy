/** Which scores a comparison gets: what is added without asking, what is
    queued for review, and what each doubt costs. */
module ScoreBands {
  import opened Common
  import opened EditDistance
  import opened Score

  const REVIEW_DEFAULT := 0.6

  // ---------- the components ----------

  function Longer(a: string, b: string): nat {
    if |a| < |b| then |b| else |a|
  }

  lemma ShareLeft(d: real, n: real, ratio: real)
    requires n > 0.0 && ratio == 1.0 - d / n
    ensures (1.0 - ratio) * n == d
  {
  }

  /** The similarity of two names falls short of 1 by the edits between them as
      a share of the longer name. */
  lemma RatioCountsEdits(a: string, b: string)
    requires a != "" && b != ""
    ensures (1.0 - Ratio(a, b)) * Longer(a, b) as real == Dist(a, b) as real
  {
    DistZeroIsEqual(a, b);
    ShareLeft(Dist(a, b) as real, Longer(a, b) as real, Ratio(a, b));
  }

  /** Runtimes within three seconds count fully, a minute apart not at all, and
      every second between costs the same. */
  lemma RuntimesCount(a: int, b: int)
    ensures var apart := if a < b then b - a else a - b;
            && (apart <= 3 ==> DurationScore(a, b) == 1.0)
            && (apart >= 60 ==> DurationScore(a, b) == 0.0)
            && (3 <= apart <= 60 ==> 57.0 * (1.0 - DurationScore(a, b)) == (apart - 3) as real)
  {
  }

  /** The artist gate is open from 0.7 on and closes in a straight line to 0.45
      for nobody in common. */
  lemma GateIsStraight(a: real)
    requires Unit(a)
    ensures a >= 0.7 ==> ArtistGate(a) == 1.0
    ensures a <= 0.7 ==> (1.0 - ArtistGate(a)) * 0.7 == 0.55 * (0.7 - a)
  {
  }

  lemma TotalAdds(want: seq<string>, name: string, got: seq<string>)
    ensures Total(want + [name], got) == Total(want, got) + Best(name, got) && Total([], got) == 0.0
  {
    assert Front(want + [name]) == want;
  }

  /** score is the n-th part of total, less three percent when there are extra
      names. */
  predicate SharedOut(score: real, total: real, n: real, extra: bool) {
    score * n == if extra then total * 0.97 else total
  }

  lemma SharingOut(score: real, total: real, n: real, extra: bool)
    requires n > 0.0 && score == if extra then total / n * 0.97 else total / n
    ensures SharedOut(score, total, n, extra)
  {
    assert total / n * n == total;
  }

  /** Artist similarity averages, over the artists wanted, how well the best
      counterpart of each matches; more names on the other side take three
      percent off. */
  lemma ArtistsAreAveraged(want: seq<string>, got: seq<string>)
    requires want != [] && got != []
    ensures SharedOut(ArtistSimilarity(want, got), Total(want, got), |want| as real, |got| > |want|)
  {
    SharingOut(ArtistSimilarity(want, got), Total(want, got), |want| as real, |got| > |want|);
  }

  /** Every artist wanted is found, but the other side names more: that costs
      three percent. */
  lemma ExtraArtistsCostThreePercent(want: seq<string>, got: seq<string>)
    requires 0 < |want| < |got| && AllFound(want, got)
    ensures ArtistSimilarity(want, got) == 0.97
  {
    TotalIsFullWhenAllFound(want, got);
    AverageBounds(Total(want, got), |want|);
  }

  // ---------- the whole score ----------

  function Points(t: real, a: real, v: real, d: Option<real>): real {
    0.4 * t + 0.3 * a + 0.2 * v + if d.Some? then 0.1 * d.value else 0.0
  }

  /** The points there are: an unknown runtime drops out. */
  function Full(d: Option<real>): real {
    if d.Some? then 1.0 else 0.9
  }

  function Scale(a: real, conflict: bool): real {
    if conflict then ArtistGate(a) * 0.75 else ArtistGate(a)
  }

  predicate MadeOf(score: real, t: real, a: real, v: real, d: Option<real>, conflict: bool) {
    score * Full(d) == Points(t, a, v, d) * Scale(a, conflict)
  }

  lemma WeighedIsMadeOf(score: real, t: real, a: real, v: real, d: Option<real>, conflict: bool)
    requires score == Weigh(Mean(t, a, v, d), ArtistGate(a), conflict)
    ensures MadeOf(score, t, a, v, d, conflict)
  {
    var mean, gate := Mean(t, a, v, d), ArtistGate(a);
    assert mean * Full(d) == Points(t, a, v, d);
    Regrouped(mean, gate, Full(d));
    Regrouped(mean, gate * 0.75, Full(d));
  }

  lemma Regrouped(x: real, y: real, z: real)
    ensures x * y * z == (x * z) * y
  {
  }

  lemma ScoreIsWeighed(want: Song, wantDur: int, got: Song, gotDur: int)
    ensures var a := ArtistSimilarity(want.artists, got.artists);
            ScoreOf(want, wantDur, got, gotDur) ==
            Weigh(MeanOf(want, wantDur, got, gotDur), ArtistGate(a), VersionScore(want.version, got.version).conflict)
  {
    ScoreIsInUnitInterval(want, wantDur, got, gotDur);
  }

  /** A score is the points for title, artists, version and runtime, as a share
      of those there are, scaled by the artist gate and, for versions that
      conflict, by three quarters. */
  lemma ScoreIsMadeOf(want: Song, wantDur: int, got: Song, gotDur: int)
    ensures var v := VersionScore(want.version, got.version);
            var d := if wantDur > 0 && gotDur > 0 then Some(DurationScore(wantDur, gotDur)) else None;
            MadeOf(ScoreOf(want, wantDur, got, gotDur), Ratio(want.title, got.title),
                   ArtistSimilarity(want.artists, got.artists), v.score, d, v.conflict)
  {
    var v := VersionScore(want.version, got.version);
    ScoreIsWeighed(want, wantDur, got, gotDur);
    WeighedIsMadeOf(ScoreOf(want, wantDur, got, gotDur), Ratio(want.title, got.title),
                    ArtistSimilarity(want.artists, got.artists), v.score, Duration(wantDur, gotDur), v.conflict);
  }

  lemma GateRises(a: real, b: real)
    requires Unit(a) && Unit(b) && a <= b
    ensures 0.0 <= ArtistGate(a) <= ArtistGate(b)
  {
  }

  lemma MeanRises(t: real, a: real, v: real, d: Option<real>, t': real, a': real, v': real, d': Option<real>)
    requires Unit(t) && Unit(a) && Unit(v) && UnitOption(d)
    requires t <= t' && a <= a' && v <= v' && d.Some? == d'.Some? && (d.Some? ==> d.value <= d'.value)
    ensures 0.0 <= Mean(t, a, v, d) <= Mean(t', a', v', d')
  {
  }

  lemma WeighRises(mean: real, gate: real, mean': real, gate': real, conflict: bool)
    requires 0.0 <= mean <= mean' && 0.0 <= gate <= gate'
    ensures Weigh(mean, gate, conflict) <= Weigh(mean', gate', conflict)
  {
    ProductAtMost(mean, gate, mean', gate');
  }

  /** Agreeing better on title, artists, version or runtime never lowers a score,
      as long as neither comparison knows a runtime the other does not, or both
      versions conflict or none. */
  lemma ScoreIsMonotone(want: Song, got: Song, wantDur: int, gotDur: int,
                        want': Song, got': Song, wantDur': int, gotDur': int)
    requires Ratio(want.title, got.title) <= Ratio(want'.title, got'.title)
    requires ArtistSimilarity(want.artists, got.artists) <= ArtistSimilarity(want'.artists, got'.artists)
    requires VersionScore(want.version, got.version).score <= VersionScore(want'.version, got'.version).score
    requires VersionScore(want.version, got.version).conflict == VersionScore(want'.version, got'.version).conflict
    requires Known(wantDur, gotDur) == Known(wantDur', gotDur')
    requires Known(wantDur, gotDur) ==> DurationScore(wantDur, gotDur) <= DurationScore(wantDur', gotDur')
    ensures ScoreOf(want, wantDur, got, gotDur) <= ScoreOf(want', wantDur', got', gotDur')
  {
    ComponentBounds(want, wantDur, got, gotDur);
    ComponentBounds(want', wantDur', got', gotDur');
    ScoreIsInUnitInterval(want, wantDur, got, gotDur);
    ScoreIsInUnitInterval(want', wantDur', got', gotDur');
    var a, a' := ArtistSimilarity(want.artists, got.artists), ArtistSimilarity(want'.artists, got'.artists);
    GateRises(a, a');
    MeanRises(Ratio(want.title, got.title), a, VersionScore(want.version, got.version).score,
              Duration(wantDur, gotDur), Ratio(want'.title, got'.title), a',
              VersionScore(want'.version, got'.version).score, Duration(wantDur', gotDur'));
    WeighRises(MeanOf(want, wantDur, got, gotDur), ArtistGate(a), MeanOf(want', wantDur', got', gotDur'),
               ArtistGate(a'), VersionScore(want.version, got.version).conflict);
  }

  // ---------- versions in order ----------

  /** How far two different kinds of version are apart, worst first. */
  function Rank(a: Kind, b: Kind): (rank: nat)
    requires a != b
    ensures rank < 8
  {
    if Pair(a, b, Unknown, Original) then 7
    else if a == Unknown || b == Unknown then 6
    else if a == Remix || b == Remix then 1
    else if Pair(a, b, Radio, Extended) then 0
    else if Pair(a, b, Original, Extended) then 5
    else if Pair(a, b, Original, Radio) then 4
    else if Pair(a, b, Live, Original) || Pair(a, b, Live, Extended)
         || Pair(a, b, Acoustic, Original) || Pair(a, b, Instrumental, Original) then 2
    else 3
  }

  lemma VerdictOfRank(a: Version, b: Version)
    requires a.kind != b.kind
    ensures VersionScore(a, b).score == [0.0, 0.10, 0.15, 0.3, 0.35, 0.45, 0.55, 0.85][Rank(a.kind, b.kind)]
    ensures VersionScore(a, b).conflict <==> Rank(a.kind, b.kind) < 6
  {
  }

  lemma RanksRise(i: nat, j: nat)
    requires i < 8 && j < 8
    ensures var scores := [0.0, 0.10, 0.15, 0.3, 0.35, 0.45, 0.55, 0.85];
            (scores[i] < scores[j] <==> i < j) && scores[i] < 1.0
  {
  }

  /** Verdicts on different kinds follow the ranks: the radio edit against the
      extended mix is the worst of all, then a remix against anything else; an
      unknown version is no conflict, and against an original one nearly as good
      as agreement. */
  lemma VerdictsFollowTheRanks(a: Version, b: Version, c: Version, d: Version)
    requires a.kind != b.kind && c.kind != d.kind
    ensures VersionScore(a, b).score < VersionScore(c, d).score <==> Rank(a.kind, b.kind) < Rank(c.kind, d.kind)
    ensures VersionScore(a, b).conflict <==> Rank(a.kind, b.kind) < 6
    ensures VersionScore(a, b).score < 1.0
  {
    VerdictOfRank(a, b);
    VerdictOfRank(c, d);
    RanksRise(Rank(a.kind, b.kind), Rank(c.kind, d.kind));
  }

  /** A remix is reported as unconfirmed exactly when one side names a remixer
      and the other does not, and then under that name; it is a conflict. */
  lemma UnconfirmedRemixIsNamed(a: Version, b: Version, name: string)
    ensures VersionScore(a, b).named == Some(name) <==>
            a.kind == b.kind == Remix && name != ""
            && ((a.remixer == name && b.remixer == "") || (a.remixer == "" && b.remixer == name))
    ensures VersionScore(a, b).named.Some? ==> VersionScore(a, b).conflict
  {
  }

  // ---------- what agreeing names leave to the version ----------

  predicate SameNames(want: Song, got: Song) {
    && want.title == got.title && want.title != ""
    && ArtistSimilarity(want.artists, got.artists) == 1.0
  }

  predicate RuntimesAgree(wantDur: int, gotDur: int) {
    wantDur <= 0 || gotDur <= 0 || (if wantDur < gotDur then gotDur - wantDur else wantDur - gotDur) <= 3
  }

  /** Nine tenths of what same names score when no runtime is known. */
  function VersionPoints(a: Version, b: Version): real {
    if a.kind != b.kind then
      [0.525, 0.54, 0.5475, 0.57, 0.5775, 0.5925, 0.81, 0.87][Rank(a.kind, b.kind)]
    else if a.kind != Remix || (a.remixer == "" && b.remixer == "") then 0.9
    else if a.remixer == "" || b.remixer == "" then 0.6075
    else if Ratio(a.remixer, b.remixer) >= 0.8 then 0.9
    else 0.525 + 0.045 * Ratio(a.remixer, b.remixer)
  }

  lemma VersionWeighs(a: Version, b: Version)
    ensures (0.7 + 0.2 * VersionScore(a, b).score) * (if VersionScore(a, b).conflict then 0.75 else 1.0)
            == VersionPoints(a, b)
  {
    if a.kind != b.kind {
      VerdictOfRank(a, b);
    }
  }

  /** With the same names and no runtime, the version alone sets the score. */
  lemma SameNamesScoreByVersion(want: Song, wantDur: int, got: Song, gotDur: int)
    requires SameNames(want, got) && (wantDur <= 0 || gotDur <= 0)
    ensures ScoreOf(want, wantDur, got, gotDur) * 0.9 == VersionPoints(want.version, got.version)
  {
    ScoreIsMadeOf(want, wantDur, got, gotDur);
    RatioMeans(want.title, got.title);
    VersionWeighs(want.version, got.version);
  }

  /** Then a song is added without asking exactly when the versions do not
      conflict, and a conflict is still queued as a low-confidence match unless
      it is a radio edit against an extended mix, or two remixers alike to less
      than a third. */
  lemma SameNamesDecideByVersion(want: Song, wantDur: int, got: Song, gotDur: int)
    requires SameNames(want, got) && (wantDur <= 0 || gotDur <= 0)
    ensures var a, b, score := want.version, got.version, ScoreOf(want, wantDur, got, gotDur);
            && (score >= AUTO_DEFAULT <==> !VersionScore(a, b).conflict)
            && (score < REVIEW_DEFAULT <==>
                  || Pair(a.kind, b.kind, Radio, Extended)
                  || (a.kind == b.kind == Remix && a.remixer != "" && b.remixer != ""
                      && Ratio(a.remixer, b.remixer) < 1.0 / 3.0))
  {
    SameNamesScoreByVersion(want, wantDur, got, gotDur);
    if want.version.kind != got.version.kind {
      VerdictsFollowTheRanks(want.version, got.version, want.version, got.version);
    }
  }

  /** The other side of the threshold: with the same names and runtimes that do
      not disagree, no version short of a conflict keeps a song from being
      added; an original mix against a bare title, the usual case, is added. */
  lemma AgreeingSongsAreAdded(want: Song, wantDur: int, got: Song, gotDur: int)
    requires SameNames(want, got) && RuntimesAgree(wantDur, gotDur)
    ensures !VersionScore(want.version, got.version).conflict <==> ScoreOf(want, wantDur, got, gotDur) >= AUTO_DEFAULT
    ensures want.version.kind == Original && got.version.kind == Unknown ==>
              ScoreOf(want, wantDur, got, gotDur) >= AUTO_DEFAULT
  {
    ScoreIsMadeOf(want, wantDur, got, gotDur);
    RatioMeans(want.title, got.title);
    VersionScoreMeans(want.version, got.version);
    VersionWeighs(want.version, got.version);
    if want.version.kind != got.version.kind {
      VerdictsFollowTheRanks(want.version, got.version, want.version, got.version);
    }
  }

  lemma ConflictWeighs(a: Version, b: Version)
    requires VersionScore(a, b).conflict
    ensures 0.0 <= VersionScore(a, b).score <= 0.55
  {
    RatioMeans(a.remixer, b.remixer);
  }

  lemma ConflictBound(t: real, a: real, v: real, d: Option<real>, score: real)
    requires Unit(t) && Unit(a) && 0.0 <= v <= 0.55 && UnitOption(d)
    requires MadeOf(score, t, a, v, d, true)
    ensures score <= 0.6825
  {
    GateMeans(a);
    ProductAtMost(Points(t, a, v, d), Scale(a, true), if d.Some? then 0.91 else 0.81, 0.75);
  }

  /** Versions that conflict stay under the auto bar by more than 0.16, however
      well everything else agrees. */
  lemma ConflictsStayBelow(want: Song, wantDur: int, got: Song, gotDur: int)
    requires VersionScore(want.version, got.version).conflict
    ensures ScoreOf(want, wantDur, got, gotDur) <= 0.6825
  {
    var a := ArtistSimilarity(want.artists, got.artists);
    ScoreIsMadeOf(want, wantDur, got, gotDur);
    ComponentBounds(want, wantDur, got, gotDur);
    ConflictWeighs(want.version, got.version);
    ConflictBound(Ratio(want.title, got.title), a, VersionScore(want.version, got.version).score,
                  Duration(wantDur, gotDur), ScoreOf(want, wantDur, got, gotDur));
  }

  lemma NobodyBound(t: real, v: real, d: Option<real>, conflict: bool, score: real)
    requires Unit(t) && Unit(v) && UnitOption(d)
    requires MadeOf(score, t, 0.0, v, d, conflict)
    ensures score <= 0.315
  {
    ProductAtMost(Points(t, 0.0, v, d), Scale(0.0, conflict), if d.Some? then 0.7 else 0.6, 0.45);
  }

  /** With nobody in common a candidate is not even queued as a low-confidence
      match. */
  lemma NobodyInCommonIsNoMatch(want: Song, wantDur: int, got: Song, gotDur: int)
    requires ArtistSimilarity(want.artists, got.artists) == 0.0
    ensures ScoreOf(want, wantDur, got, gotDur) <= 0.315 < REVIEW_DEFAULT
  {
    ScoreIsMadeOf(want, wantDur, got, gotDur);
    ComponentBounds(want, wantDur, got, gotDur);
    var v := VersionScore(want.version, got.version);
    NobodyBound(Ratio(want.title, got.title), v.score, Duration(wantDur, gotDur), v.conflict,
                ScoreOf(want, wantDur, got, gotDur));
  }

  /** A collaborator credited on one side only does not keep a song from being
      added. */
  lemma ExtraArtistsAreAdded(want: Song, wantDur: int, got: Song, gotDur: int)
    requires want.title == got.title && want.title != "" && want.version.kind == got.version.kind != Remix
    requires 0 < |want.artists| < |got.artists| && AllFound(want.artists, got.artists)
    requires RuntimesAgree(wantDur, gotDur)
    ensures 0.99 <= ScoreOf(want, wantDur, got, gotDur) < 1.0
  {
    ScoreIsMadeOf(want, wantDur, got, gotDur);
    RatioMeans(want.title, got.title);
    ExtraArtistsCostThreePercent(want.artists, got.artists);
    VersionScoreMeans(want.version, got.version);
  }
}
