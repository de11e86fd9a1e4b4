/** The text normalizer: a pipeline of rewrites, its one-pass meaning, and the
    strings it leaves alone. */
module TextNormalize {
  import opened Common

  /** What Go's unicode tables answer; Mn is the class of combining marks. */
  datatype Unicode = Unicode(
    lower: char -> char, letter: char -> bool, number: char -> bool, mn: char -> bool, space: char -> bool)

  predicate Word(u: Unicode, c: char) {
    u.letter(c) || u.number(c)
  }

  /** \s of RE2. */
  predicate Blank(c: char) {
    c == '\t' || c == '\n' || c == '\U{0C}' || c == '\r' || c == ' '
  }

  predicate Apostrophe(c: char) {
    c == '\'' || c == '`'
  }

  /** What the proofs ask of the tables. */
  ghost predicate Lawful(u: Unicode) {
    && (forall c :: u.lower(u.lower(c)) == u.lower(c))
    && (forall c :: 'a' <= c <= 'z' ==> u.lower(c) == c && u.letter(c))
    && (forall c :: Word(u, c) ==> !u.mn(c) && !u.space(c) && !Apostrophe(c))
    && (forall c :: Blank(c) ==> u.space(c))
    && !Word(u, '"') && !Word(u, '-')
    && (forall c :: u.space(c) ==> u.lower(c) == c && !u.mn(c) && !Apostrophe(c))
    && (forall c {:trigger FoldOf(c)} :: FoldOf(c).Some? ==> !u.space(c))
  }

  /** The tables cut down to ASCII. */
  const ASCII := Unicode(
    c => if 'A' <= c <= 'Z' then (c as int + 32) as char else c,
    c => 'A' <= c <= 'Z' || 'a' <= c <= 'z',
    c => '0' <= c <= '9',
    c => false,
    c => Blank(c) || c == '\U{0B}')

  lemma AsciiLetters()
    ensures forall c :: ASCII.lower(ASCII.lower(c)) == ASCII.lower(c)
    ensures forall c :: Word(ASCII, c) ==> !ASCII.mn(c) && !ASCII.space(c) && !Apostrophe(c)
  {
    assert forall c :: Word(ASCII, c) <==> 'A' <= c <= 'Z' || 'a' <= c <= 'z' || '0' <= c <= '9';
  }

  lemma AsciiFolds(c: char)
    ensures FoldOf(c).Some? ==> !ASCII.space(c)
  {
    assert FoldOf(c).Some? ==> c > 'z';
  }

  /** The laws can be met. */
  lemma AsciiIsLawful()
    ensures Lawful(ASCII)
  {
    AsciiLetters();
    forall c
      ensures FoldOf(c).Some? ==> !ASCII.space(c)
    {
      AsciiFolds(c);
    }
  }

  // ---------- the pipeline ----------

  /** The fold table. */
  function FoldOf(c: char): (r: Option<string>)
    ensures r.Some? ==> c > 'z'
    ensures r.Some? ==> forall i :: 0 <= i < |r.value| ==> 'a' <= r.value[i] <= 'z' || r.value[i] in "'\"-"
  {
    match c
    case 'á' | 'à' | 'â' | 'ä' | 'ã' | 'å' | 'ā' => Some("a")
    case 'é' | 'è' | 'ê' | 'ë' | 'ē' => Some("e")
    case 'í' | 'ì' | 'î' | 'ï' | 'ī' => Some("i")
    case 'ó' | 'ò' | 'ô' | 'ö' | 'õ' | 'ø' | 'ō' => Some("o")
    case 'ú' | 'ù' | 'û' | 'ü' | 'ū' => Some("u")
    case 'ý' | 'ÿ' => Some("y")
    case 'ç' | 'č' => Some("c")
    case 'ñ' => Some("n")
    case 'ß' => Some("ss")
    case 'æ' => Some("ae")
    case 'œ' => Some("oe")
    case 'ð' => Some("d")
    case 'þ' => Some("th")
    case 'ł' => Some("l")
    case 'š' => Some("s")
    case 'ž' => Some("z")
    case 'ř' => Some("r")
    case '’' | '‘' => Some("'")
    case '“' | '”' => Some("\"")
    case '–' | '—' => Some("-")
    case _ => None
  }

  function FoldOne(u: Unicode, c: char): string {
    match FoldOf(c)
    case Some(folded) => folded
    case None => if u.mn(c) then "" else [c]
  }

  function Stripped(u: Unicode, s: string): string {
    if s == [] then [] else Stripped(u, Front(s)) + FoldOne(u, Last(s))
  }

  method StripDiacritics(u: Unicode, s: string) returns (r: string)
    ensures r == Stripped(u, s)
  {
    r := "";
    for i := 0 to |s|
      invariant r == Stripped(u, s[..i])
    {
      assert Front(s[..i + 1]) == s[..i] && Last(s[..i + 1]) == s[i];
      var folded := FoldOf(s[i]);
      if folded.Some? {
        r := r + folded.value;
      } else if !u.mn(s[i]) {
        r := r + [s[i]];
      }
    }
    assert s[..|s|] == s;
  }

  function Lowered(u: Unicode, s: string): (r: string)
    ensures |r| == |s|
    ensures forall i :: 0 <= i < |s| ==> r[i] == u.lower(s[i])
  {
    seq(|s|, i requires 0 <= i < |s| => u.lower(s[i]))
  }

  function TrimLeft(u: Unicode, s: string): string {
    if s != [] && u.space(s[0]) then TrimLeft(u, s[1..]) else s
  }

  function TrimRight(u: Unicode, s: string): string {
    if s != [] && u.space(Last(s)) then TrimRight(u, Front(s)) else s
  }

  function TrimSpace(u: Unicode, s: string): string {
    TrimRight(u, TrimLeft(u, s))
  }

  function WithoutApostrophes(s: string): string {
    if s == [] then []
    else WithoutApostrophes(Front(s)) + if Apostrophe(Last(s)) then [] else [Last(s)]
  }

  /** Every maximal run of matching characters becomes one space. */
  function ReplaceRuns(hit: char -> bool, s: string): string {
    if s == [] then []
    else
      var before := ReplaceRuns(hit, Front(s));
      if !hit(Last(s)) then before + [Last(s)]
      else if 1 < |s| && hit(s[|s| - 2]) then before
      else before + [' ']
  }

  function Punctuation(u: Unicode): char -> bool {
    c => !Word(u, c) && !Blank(c)
  }

  function Normalize(u: Unicode, s: string): string {
    var lowered := Lowered(u, TrimSpace(u, s));
    var elided := WithoutApostrophes(Stripped(u, lowered));
    TrimSpace(u, ReplaceRuns(Blank, ReplaceRuns(Punctuation(u), elided)))
  }

  // ---------- what it means ----------

  /** What is left to cut into words: folded characters, elisions gone. */
  function Skeleton(u: Unicode, s: string): string {
    WithoutApostrophes(Stripped(u, Lowered(u, s)))
  }

  predicate AllWord(u: Unicode, w: string) {
    w != [] && forall i :: 0 <= i < |w| ==> Word(u, w[i])
  }

  /** The maximal runs of letters and digits. */
  function Words(u: Unicode, t: string): (ws: seq<string>)
    ensures t != [] && Word(u, Last(t)) ==> ws != []
    ensures forall i :: 0 <= i < |ws| ==> AllWord(u, ws[i])
  {
    if t == [] then []
    else
      var ws, c := Words(u, Front(t)), Last(t);
      if !Word(u, c) then ws
      else if 1 < |t| && Word(u, t[|t| - 2]) then Front(ws) + [Last(ws) + [c]]
      else ws + [[c]]
  }

  function Join(ws: seq<string>): string {
    if ws == [] then []
    else if |ws| == 1 then ws[0]
    else Join(Front(ws)) + " " + Last(ws)
  }

  /** Letters and digits the pipeline would not change, one space between words
      and none outside. */
  predicate NormalForm(u: Unicode, s: string) {
    && (forall i :: 0 <= i < |s| ==> s[i] == ' ' || Plain(u, s[i]))
    && (forall i :: 0 < i < |s| ==> s[i - 1] != ' ' || s[i] != ' ')
    && (s != [] ==> s[0] != ' ' && Last(s) != ' ')
  }

  predicate Plain(u: Unicode, c: char) {
    Word(u, c) && u.lower(c) == c && FoldOf(c).None?
  }

  // ---------- two replacements are one ----------

  lemma {:induction false} ReplacedEnd(hit: char -> bool, s: string)
    requires s != []
    ensures ReplaceRuns(hit, s) != []
    ensures Last(ReplaceRuns(hit, s)) == if hit(Last(s)) then ' ' else Last(s)
  {
    if 1 < |s| {
      ReplacedEnd(hit, Front(s));
      assert Last(Front(s)) == s[|s| - 2];
    }
  }

  function Break(u: Unicode): char -> bool {
    c => !Word(u, c)
  }

  lemma RunStep(hit: char -> bool, s: string, c: char)
    ensures ReplaceRuns(hit, s + [c]) == ReplaceRuns(hit, s) + RunTail(hit, s, c)
  {
    assert Front(s + [c]) == s;
  }

  function RunTail(hit: char -> bool, s: string, c: char): string {
    if !hit(c) then [c] else if s != [] && hit(Last(s)) then [] else [' ']
  }

  lemma {:induction false} PunctuationThenBlanks(u: Unicode, t: string)
    requires Lawful(u)
    ensures ReplaceRuns(Blank, ReplaceRuns(Punctuation(u), t)) == ReplaceRuns(Break(u), t)
  {
    if t != [] {
      var front, c := Front(t), Last(t);
      assert t == front + [c];
      PunctuationThenBlanks(u, front);
      RunStep(Punctuation(u), front, c);
      RunStep(Break(u), front, c);
      var x, tail := ReplaceRuns(Punctuation(u), front), RunTail(Punctuation(u), front, c);
      if front != [] {
        ReplacedEnd(Punctuation(u), front);
      }
      if tail == [] {
        assert x + tail == x;
      } else {
        RunStep(Blank, x, tail[0]);
        assert RunTail(Blank, x, tail[0]) == RunTail(Break(u), front, c);
      }
    }
  }

  // ---------- the replacement spells the words ----------

  lemma {:induction false} JoinExtended(ws: seq<string>, c: char)
    requires ws != []
    ensures Join(Front(ws) + [Last(ws) + [c]]) == Join(ws) + [c]
  {
    var longer := Front(ws) + [Last(ws) + [c]];
    assert Front(longer) == Front(ws);
    if |ws| > 1 {
      assert Join(longer) == Join(Front(ws)) + " " + (Last(ws) + [c]);
      assert Join(ws) == Join(Front(ws)) + " " + Last(ws);
    }
  }

  lemma JoinAppended(ws: seq<string>, w: string)
    ensures Join(ws + [w]) == if ws == [] then w else Join(ws) + " " + w
  {
    assert Front(ws + [w]) == ws;
  }

  function Lead(u: Unicode, t: string): string {
    if t != [] && !Word(u, t[0]) then " " else ""
  }

  function Trail(u: Unicode, t: string): string {
    if t != [] && !Word(u, Last(t)) then " " else ""
  }

  lemma WordsStep(u: Unicode, t: string, c: char)
    ensures Words(u, t + [c]) ==
            if !Word(u, c) then Words(u, t)
            else if t != [] && Word(u, Last(t)) then Front(Words(u, t)) + [Last(Words(u, t)) + [c]]
            else Words(u, t) + [[c]]
  {
    assert Front(t + [c]) == t;
  }

  /** The words of a text, with what the replacement leaves around them. */
  function Spelled(lead: string, ws: seq<string>, trail: string): string {
    if ws == [] then lead else lead + Join(ws) + trail
  }

  lemma SpelledAndBroken(lead: string, ws: seq<string>)
    requires ws != []
    ensures Spelled(lead, ws, "") + " " == Spelled(lead, ws, " ")
  {
    assert (lead + Join(ws) + "") + " " == lead + Join(ws) + " ";
  }

  lemma SpelledAndExtended(lead: string, ws: seq<string>, c: char)
    requires ws != []
    ensures Spelled(lead, ws, "") + [c] == Spelled(lead, Front(ws) + [Last(ws) + [c]], "")
  {
    JoinExtended(ws, c);
    assert (lead + Join(ws) + "") + [c] == lead + (Join(ws) + [c]) + "";
  }

  lemma SpelledAndAppended(lead: string, ws: seq<string>, c: char)
    ensures Spelled(lead, ws, " ") + [c] == Spelled(lead, ws + [[c]], "")
  {
    JoinAppended(ws, [c]);
    assert (lead + Join(ws) + " ") + [c] == lead + (Join(ws) + " " + [c]) + "";
    assert lead + [c] == lead + [c] + "";
  }

  lemma SpelledStep(u: Unicode, t: string, c: char)
    requires t != []
    ensures Spelled(Lead(u, t), Words(u, t), Trail(u, t)) + RunTail(Break(u), t, c) ==
            Spelled(Lead(u, t + [c]), Words(u, t + [c]), Trail(u, t + [c]))
  {
    WordsStep(u, t, c);
    var lead, ws, trail := Lead(u, t), Words(u, t), Trail(u, t);
    assert Lead(u, t + [c]) == lead && Trail(u, t + [c]) == if Word(u, c) then "" else " ";
    if Word(u, c) {
      assert RunTail(Break(u), t, c) == [c];
      if Word(u, Last(t)) {
        assert trail == "";
        SpelledAndExtended(lead, ws, c);
      } else {
        assert trail == " ";
        SpelledAndAppended(lead, ws, c);
      }
    } else if Word(u, Last(t)) {
      assert trail == "" && RunTail(Break(u), t, c) == " ";
      SpelledAndBroken(lead, ws);
    } else {
      assert trail == " " && RunTail(Break(u), t, c) == [];
      assert Spelled(lead, ws, " ") + [] == Spelled(lead, ws, " ");
    }
  }

  lemma {:induction false} RunsSpellWords(u: Unicode, t: string)
    ensures ReplaceRuns(Break(u), t) == Spelled(Lead(u, t), Words(u, t), Trail(u, t))
  {
    if t != [] {
      var front, c := Front(t), Last(t);
      assert t == front + [c];
      RunsSpellWords(u, front);
      RunStep(Break(u), front, c);
      if front == [] {
        WordsStep(u, front, c);
      } else {
        SpelledStep(u, front, c);
      }
    }
  }

  // ---------- trimming ----------

  lemma {:induction false} TrimLeftParts(u: Unicode, s: string) returns (l: string)
    ensures s == l + TrimLeft(u, s) && forall c :: c in l ==> u.space(c)
  {
    if s != [] && u.space(s[0]) {
      l := TrimLeftParts(u, s[1..]);
      assert s == [s[0]] + s[1..];
      l := [s[0]] + l;
    } else {
      l := [];
    }
  }

  lemma {:induction false} TrimRightParts(u: Unicode, s: string) returns (r: string)
    ensures s == TrimRight(u, s) + r && forall c :: c in r ==> u.space(c)
  {
    if s != [] && u.space(Last(s)) {
      r := TrimRightParts(u, Front(s));
      assert s == Front(s) + [Last(s)];
      r := r + [Last(s)];
    } else {
      r := [];
    }
  }

  lemma TrimUnpads(u: Unicode, l: string, s: string, r: string)
    requires u.space(' ') && l in {"", " "} && r in {"", " "}
    requires s != [] ==> !u.space(s[0]) && !u.space(Last(s))
    requires s == [] ==> r == []
    ensures TrimSpace(u, l + s + r) == s
  {
    var padded := l + s + r;
    assert l == " " ==> padded[1..] == s + r;
    assert l == "" ==> padded == s + r;
    assert s + r != [] ==> (s + r)[0] == s[0];
    assert TrimLeft(u, s + r) == s + r;
    assert TrimLeft(u, padded) == s + r;
    assert TrimRight(u, s) == s;
    assert r == " " ==> Front(s + r) == s && Last(s + r) == ' ';
    assert r == "" ==> s + r == s;
  }

  // ---------- main results ----------

  lemma {:induction false} SkeletonOfSpaces(u: Unicode, s: string)
    requires Lawful(u) && forall c :: c in s ==> u.space(c)
    ensures forall c :: c in Skeleton(u, s) ==> !Word(u, c)
  {
    if s != [] {
      SkeletonOfSpaces(u, Front(s));
      SkeletonSnoc(u, s);
      assert Last(s) in s;
    }
  }

  lemma SkeletonSnoc(u: Unicode, s: string)
    requires s != []
    ensures Skeleton(u, s) == Skeleton(u, Front(s)) + WithoutApostrophes(FoldOne(u, u.lower(Last(s))))
  {
    assert Front(Lowered(u, s)) == Lowered(u, Front(s));
    WithoutApostrophesOfSum(Stripped(u, Lowered(u, Front(s))), FoldOne(u, u.lower(Last(s))));
  }

  lemma {:induction false} WithoutApostrophesOfSum(a: string, b: string)
    ensures WithoutApostrophes(a + b) == WithoutApostrophes(a) + WithoutApostrophes(b)
  {
    if b == [] {
      assert a + b == a;
    } else {
      WithoutApostrophesOfSum(a, Front(b));
      assert Front(a + b) == a + Front(b);
    }
  }

  lemma {:induction false} SkeletonOfSum(u: Unicode, a: string, b: string)
    ensures Skeleton(u, a + b) == Skeleton(u, a) + Skeleton(u, b)
  {
    if b == [] {
      assert a + b == a;
    } else {
      SkeletonOfSum(u, a, Front(b));
      assert Front(a + b) == a + Front(b) && Last(a + b) == Last(b);
      SkeletonSnoc(u, a + b);
      SkeletonSnoc(u, b);
      ConcatAssociates(
        Skeleton(u, a), Skeleton(u, Front(b)), WithoutApostrophes(FoldOne(u, u.lower(Last(b)))));
    }
  }

  lemma {:induction false} WordsIgnoreLead(u: Unicode, l: string, t: string)
    requires forall c :: c in l ==> !Word(u, c)
    ensures Words(u, l + t) == Words(u, t)
  {
    if t == [] {
      if l != [] {
        assert Last(l) in l;
        WordsIgnoreLead(u, Front(l), []);
        assert l + t == l && Front(l) + [] == Front(l);
      }
    } else {
      WordsIgnoreLead(u, l, Front(t));
      assert Front(l + t) == l + Front(t);
      assert l != [] ==> Last(l) in l;
    }
  }

  lemma {:induction false} WordsIgnoreTrail(u: Unicode, t: string, r: string)
    requires forall c :: c in r ==> !Word(u, c)
    ensures Words(u, t + r) == Words(u, t)
  {
    if r == [] {
      assert t + r == t;
    } else {
      WordsIgnoreTrail(u, t, Front(r));
      assert Front(t + r) == t + Front(r);
      assert Last(r) in r;
    }
  }

  lemma TrimKeepsWords(u: Unicode, s: string)
    requires Lawful(u)
    ensures Words(u, Skeleton(u, TrimSpace(u, s))) == Words(u, Skeleton(u, s))
  {
    var l := TrimLeftParts(u, s);
    var t := TrimLeft(u, s);
    var r := TrimRightParts(u, t);
    SkeletonOfSum(u, l, t);
    SkeletonOfSum(u, TrimSpace(u, s), r);
    SkeletonOfSpaces(u, l);
    SkeletonOfSpaces(u, r);
    WordsIgnoreLead(u, Skeleton(u, l), Skeleton(u, t));
    WordsIgnoreTrail(u, Skeleton(u, TrimSpace(u, s)), Skeleton(u, r));
  }

  lemma {:induction false} JoinEnds(u: Unicode, ws: seq<string>)
    requires forall i :: 0 <= i < |ws| ==> AllWord(u, ws[i])
    ensures ws != [] ==> Join(ws) != [] && Word(u, Join(ws)[0]) && Word(u, Last(Join(ws)))
  {
    if 1 < |ws| {
      JoinEnds(u, Front(ws));
    }
  }

  /** Normalizing keeps the words of the folded text, in order, one space
      between neighbours, and nothing else. */
  lemma NormalizeSpellsTheWords(u: Unicode, s: string)
    requires Lawful(u)
    ensures Normalize(u, s) == Join(Words(u, Skeleton(u, s)))
  {
    var t := Skeleton(u, TrimSpace(u, s));
    var ws := Words(u, t);
    PunctuationThenBlanks(u, t);
    RunsSpellWords(u, t);
    TrimKeepsWords(u, s);
    JoinEnds(u, ws);
    assert Blank(' ');
    if ws == [] {
      TrimUnpads(u, Lead(u, t), "", "");
      assert Lead(u, t) + "" + "" == Lead(u, t);
    } else {
      TrimUnpads(u, Lead(u, t), Join(ws), Trail(u, t));
    }
  }

  // ---------- the strings left alone ----------

  lemma FoldedAreSmall(u: Unicode, folded: string)
    requires Lawful(u)
    requires forall i :: 0 <= i < |folded| ==> 'a' <= folded[i] <= 'z' || folded[i] in "'\"-"
    ensures PlainWords(u, folded)
  {
    assert Apostrophe('\'');
  }

  lemma FoldedIsPlain(u: Unicode, c: char)
    requires Lawful(u) && u.lower(c) == c
    ensures PlainWords(u, FoldOne(u, c))
  {
    if FoldOf(c).Some? {
      FoldedAreSmall(u, FoldOf(c).value);
    }
  }

  /** Its letters and digits are ones the pipeline would not change. */
  predicate PlainWords(u: Unicode, t: string) {
    forall i :: 0 <= i < |t| && Word(u, t[i]) ==> Plain(u, t[i])
  }

  lemma PlainWordsOfSum(u: Unicode, a: string, b: string)
    requires PlainWords(u, a) && PlainWords(u, b)
    ensures PlainWords(u, a + b)
  {
  }

  lemma {:induction false} StrippedIsPlain(u: Unicode, s: string)
    requires Lawful(u) && forall i :: 0 <= i < |s| ==> u.lower(s[i]) == s[i]
    ensures PlainWords(u, Stripped(u, s))
  {
    if s != [] {
      StrippedIsPlain(u, Front(s));
      FoldedIsPlain(u, Last(s));
      PlainWordsOfSum(u, Stripped(u, Front(s)), FoldOne(u, Last(s)));
    }
  }

  lemma {:induction false} ElisionKeeps(s: string)
    ensures forall c :: c in WithoutApostrophes(s) ==> c in s
  {
    if s != [] {
      ElisionKeeps(Front(s));
    }
  }

  lemma SkeletonIsPlain(u: Unicode, s: string)
    requires Lawful(u)
    ensures PlainWords(u, Skeleton(u, s))
  {
    var t := Lowered(u, s);
    StrippedIsPlain(u, t);
    ElisionKeeps(Stripped(u, t));
    forall i | 0 <= i < |Skeleton(u, s)| && Word(u, Skeleton(u, s)[i])
      ensures Plain(u, Skeleton(u, s)[i])
    {
      assert Skeleton(u, s)[i] in Stripped(u, t);
    }
  }

  lemma {:induction false} WordsArePlain(u: Unicode, t: string)
    requires PlainWords(u, t)
    ensures forall i, j :: 0 <= i < |Words(u, t)| && 0 <= j < |Words(u, t)[i]| ==> Plain(u, Words(u, t)[i][j])
  {
    if t != [] {
      WordsArePlain(u, Front(t));
    }
  }

  lemma {:induction false} JoinIsNormal(u: Unicode, ws: seq<string>)
    requires !Word(u, ' ')
    requires forall i :: 0 <= i < |ws| ==> AllWord(u, ws[i])
    requires forall i, j :: 0 <= i < |ws| && 0 <= j < |ws[i]| ==> Plain(u, ws[i][j])
    ensures NormalForm(u, Join(ws))
  {
    if 1 < |ws| {
      JoinIsNormal(u, Front(ws));
      JoinEnds(u, Front(ws));
      NormalJoined(u, Join(Front(ws)), Last(ws));
    }
  }

  lemma NormalJoined(u: Unicode, a: string, w: string)
    requires NormalForm(u, a) && a != [] && w != [] && !Word(u, ' ')
    requires forall j :: 0 <= j < |w| ==> Plain(u, w[j])
    ensures NormalForm(u, a + " " + w)
  {
    var r := a + " " + w;
    assert r[|a|] == ' ' && Last(r) == Last(w);
    assert forall i :: 0 <= i < |a| ==> r[i] == a[i];
    assert forall i :: |a| < i < |r| ==> r[i] == w[i - |a| - 1];
  }

  lemma NormalizeIsNormal(u: Unicode, s: string)
    requires Lawful(u)
    ensures NormalForm(u, Normalize(u, s))
  {
    NormalizeSpellsTheWords(u, s);
    SkeletonIsPlain(u, s);
    WordsArePlain(u, Skeleton(u, s));
    assert Blank(' ');
    JoinIsNormal(u, Words(u, Skeleton(u, s)));
  }

  lemma NormalCharacterStays(u: Unicode, c: char)
    requires Lawful(u) && (c == ' ' || Plain(u, c))
    ensures WithoutApostrophes(FoldOne(u, u.lower(c))) == [c]
  {
    assert Blank(' ');
    assert FoldOne(u, u.lower(c)) == [c];
    assert Front([c]) == [] && WithoutApostrophes([c]) == [c];
  }

  lemma {:induction false} SkeletonOfNormal(u: Unicode, s: string)
    requires Lawful(u) && forall i :: 0 <= i < |s| ==> s[i] == ' ' || Plain(u, s[i])
    ensures Skeleton(u, s) == s
  {
    if s != [] {
      SkeletonOfNormal(u, Front(s));
      SkeletonSnoc(u, s);
      NormalCharacterStays(u, Last(s));
      assert s == Front(s) + [Last(s)];
    }
  }

  lemma {:induction false} RunsOfSpaced(u: Unicode, s: string)
    requires !Word(u, ' ') && forall i :: 0 <= i < |s| ==> s[i] == ' ' || Word(u, s[i])
    requires forall i :: 0 < i < |s| ==> s[i - 1] != ' ' || s[i] != ' '
    ensures ReplaceRuns(Break(u), s) == s
  {
    if s != [] {
      RunsOfSpaced(u, Front(s));
      assert s == Front(s) + [Last(s)];
    }
  }

  lemma SpacedWordsJoin(u: Unicode, s: string)
    requires !Word(u, ' ') && forall i :: 0 <= i < |s| ==> s[i] == ' ' || Word(u, s[i])
    requires forall i :: 0 < i < |s| ==> s[i - 1] != ' ' || s[i] != ' '
    requires s != [] ==> s[0] != ' ' && Last(s) != ' '
    ensures Join(Words(u, s)) == s
  {
    RunsOfSpaced(u, s);
    RunsSpellWords(u, s);
  }

  /** Normalizing leaves exactly the normal forms alone. */
  lemma FixedExactlyWhenNormal(u: Unicode, s: string)
    requires Lawful(u)
    ensures Normalize(u, s) == s <==> NormalForm(u, s)
  {
    if NormalForm(u, s) {
      assert Blank(' ');
      NormalizeSpellsTheWords(u, s);
      SkeletonOfNormal(u, s);
      SpacedWordsJoin(u, s);
    } else {
      NormalizeIsNormal(u, s);
    }
  }

  lemma NormalizeIsIdempotent(u: Unicode, s: string)
    requires Lawful(u)
    ensures Normalize(u, Normalize(u, s)) == Normalize(u, s)
  {
    NormalizeIsNormal(u, s);
    FixedExactlyWhenNormal(u, Normalize(u, s));
  }

  /** Two texts normalize alike exactly when they have the same words. */
  lemma NormalizeComparesWords(u: Unicode, s: string, t: string)
    requires Lawful(u)
    ensures Normalize(u, s) == Normalize(u, t) <==> Words(u, Skeleton(u, s)) == Words(u, Skeleton(u, t))
  {
    NormalizeSpellsTheWords(u, s);
    NormalizeSpellsTheWords(u, t);
    assert Blank(' ');
    JoinReadsBack(u, Words(u, Skeleton(u, s)));
    JoinReadsBack(u, Words(u, Skeleton(u, t)));
  }

  lemma LongerLastWord(u: Unicode, t: string, c: char, t': string, ws: seq<string>, word: string)
    requires t' == t + [c] && Word(u, c) && t != [] && Word(u, Last(t)) && Words(u, t) == ws + [word]
    ensures Words(u, t') == ws + [word + [c]]
  {
    WordsStep(u, t, c);
    assert Front(ws + [word]) == ws;
  }

  lemma {:induction false} WordsOfAllWord(u: Unicode, a: string, w: string)
    requires AllWord(u, w) && (a != [] ==> !Word(u, Last(a)))
    ensures Words(u, a + w) == Words(u, a) + [w]
  {
    var front, c := Front(w), Last(w);
    assert w == front + [c];
    if front == [] {
      WordsStep(u, a, c);
    } else {
      WordsOfAllWord(u, a, front);
      assert Last(a + front) == Last(front) && a + w == (a + front) + [c];
      LongerLastWord(u, a + front, c, a + w, Words(u, a), front);
    }
  }

  lemma WordsOfOne(u: Unicode, w: string)
    requires AllWord(u, w)
    ensures Words(u, w) == [w]
  {
    WordsOfAllWord(u, [], w);
    assert [] + w == w;
  }

  lemma WordsJoined(u: Unicode, a: string, w: string)
    requires AllWord(u, w) && !Word(u, ' ')
    ensures Words(u, a + " " + w) == Words(u, a) + [w]
  {
    assert Front(a + " ") == a;
    WordsOfAllWord(u, a + " ", w);
  }

  lemma JoinOfLonger(u: Unicode, ws: seq<string>, front: seq<string>, w: string)
    requires ws == front + [w] && front != [] && AllWord(u, w) && !Word(u, ' ') && Words(u, Join(front)) == front
    ensures Words(u, Join(ws)) == ws
  {
    WordsJoined(u, Join(front), w);
    assert Front(ws) == front;
  }

  lemma {:induction false} JoinReadsBack(u: Unicode, ws: seq<string>)
    requires !Word(u, ' ') && forall i :: 0 <= i < |ws| ==> AllWord(u, ws[i])
    ensures Words(u, Join(ws)) == ws
  {
    if |ws| == 1 {
      WordsOfOne(u, ws[0]);
    } else if 1 < |ws| {
      JoinReadsBack(u, Front(ws));
      JoinOfLonger(u, ws, Front(ws), Last(ws));
    }
  }

  // ---------- one character at a time ----------

  /** The letters behind an accented one, the plain sign behind a typographic
      one, and nothing for an apostrophe; any other character itself. */
  function Unaccented(c: char): string {
    match c
    case 'á' | 'à' | 'â' | 'ä' | 'ã' | 'å' | 'ā' => "a"
    case 'é' | 'è' | 'ê' | 'ë' | 'ē' => "e"
    case 'í' | 'ì' | 'î' | 'ï' | 'ī' => "i"
    case 'ó' | 'ò' | 'ô' | 'ö' | 'õ' | 'ø' | 'ō' => "o"
    case 'ú' | 'ù' | 'û' | 'ü' | 'ū' => "u"
    case 'ý' | 'ÿ' => "y"
    case 'ç' | 'č' => "c"
    case 'ñ' => "n"
    case 'š' => "s"
    case 'ž' => "z"
    case 'ř' => "r"
    case 'ł' => "l"
    case 'ð' => "d"
    case 'þ' => "th"
    case 'ß' => "ss"
    case 'æ' => "ae"
    case 'œ' => "oe"
    case '“' | '”' => ['"']
    case '–' | '—' => "-"
    case '’' | '‘' => ""
    case '`' => ""
    case _ => if c == '\'' then "" else [c]
  }

  lemma OneElided(a: char)
    ensures WithoutApostrophes([a]) == if a == '\'' || a == '`' then [] else [a]
  {
    assert Front([a]) == [];
  }

  lemma TwoKept(a: char, b: char)
    requires a != '\'' && a != '`' && b != '\'' && b != '`'
    ensures WithoutApostrophes([a, b]) == [a, b]
  {
    OneElided(a);
    assert Front([a, b]) == [a];
  }

  /** Without its accent and its apostrophes, folded reads plain. */
  predicate Elides(folded: string, plain: string) {
    || (folded == ['\''] && plain == "")
    || (folded == plain && 1 <= |folded| <= 2 && '\'' !in folded && '`' !in folded)
  }

  lemma ElidedIs(folded: string, plain: string)
    requires Elides(folded, plain)
    ensures WithoutApostrophes(folded) == plain
  {
    if |folded| == 1 {
      assert folded == [folded[0]];
      OneElided(folded[0]);
    } else {
      assert folded == [folded[0], folded[1]];
      TwoKept(folded[0], folded[1]);
    }
  }

  lemma FoldIs(c: char)
    ensures match FoldOf(c) {
              case Some(folded) => Elides(folded, Unaccented(c)) && Unaccented(c) != [c]
              case None => Unaccented(c) == if c == '\'' || c == '`' then "" else [c]
            }
  {
  }

  lemma FoldThenElide(u: Unicode, c: char, plain: string)
    requires plain == Unaccented(c)
    ensures WithoutApostrophes(FoldOne(u, c)) == if plain == [c] && u.mn(c) then [] else plain
  {
    FoldIs(c);
    match FoldOf(c)
    case None => OneElided(c);
    case Some(folded) => ElidedIs(folded, plain);
  }

  /** What the words are cut from grows by one character at a time: the lower-case
      form without its accent, nothing for an apostrophe or a combining mark. */
  lemma SkeletonGrowsBy(u: Unicode, s: string, c: char)
    ensures Skeleton(u, "") == ""
    ensures var lower := u.lower(c);
            Skeleton(u, s + [c]) ==
            Skeleton(u, s) + if Unaccented(lower) == [lower] && u.mn(lower) then [] else Unaccented(lower)
  {
    var longer := s + [c];
    assert Front(longer) == s && Last(longer) == c;
    SkeletonSnoc(u, longer);
    FoldThenElide(u, u.lower(c), Unaccented(u.lower(c)));
  }
}
