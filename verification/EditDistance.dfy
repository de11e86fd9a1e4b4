/** The matcher's edit distance: a two-row table against the cheapest edit
    script. */
module EditDistance {
  import opened Common

  /** Edit scripts rewrite a string from its right end. */
  datatype Edit = Keep | Replace(c: char) | Insert(c: char) | Delete

  function Apply(a: string, script: seq<Edit>): Option<string>
    decreases |script|
  {
    if script == [] then if a == "" then Some("") else None
    else
      match Last(script)
      case Keep => if a == "" then None else Push(Apply(Front(a), Front(script)), Last(a))
      case Replace(c) => if a == "" then None else Push(Apply(Front(a), Front(script)), c)
      case Insert(c) => Push(Apply(a, Front(script)), c)
      case Delete => if a == "" then None else Apply(Front(a), Front(script))
  }

  function Push(s: Option<string>, c: char): Option<string> {
    if s.None? then None else Some(s.value + [c])
  }

  function Cost(script: seq<Edit>): nat {
    if script == [] then 0 else Cost(Front(script)) + if Last(script).Keep? then 0 else 1
  }

  function Min(a: nat, b: nat): nat {
    if a < b then a else b
  }

  function Max(a: nat, b: nat): nat {
    if a > b then a else b
  }

  /** The table entry for two strings. */
  function Dist(a: string, b: string): nat
    decreases |a| + |b|
  {
    if a == "" then |b|
    else if b == "" then |a|
    else Min(Min(Dist(a, Front(b)) + 1, Dist(Front(a), b) + 1),
             Dist(Front(a), Front(b)) + if Last(a) == Last(b) then 0 else 1)
  }

  // ---------- the cheapest script ----------

  lemma {:induction false} SomeScriptAchieves(a: string, b: string) returns (script: seq<Edit>)
    ensures Apply(a, script) == Some(b) && Cost(script) == Dist(a, b)
    decreases |a| + |b|
  {
    if a == "" && b == "" {
      script := [];
    } else {
      var edit: Edit, front;
      if a == "" || (b != "" && Dist(a, b) == Dist(a, Front(b)) + 1) {
        front := SomeScriptAchieves(a, Front(b));
        edit := Insert(Last(b));
      } else if b == "" || Dist(a, b) == Dist(Front(a), b) + 1 {
        front := SomeScriptAchieves(Front(a), b);
        edit := Delete;
      } else {
        front := SomeScriptAchieves(Front(a), Front(b));
        edit := if Last(a) == Last(b) then Keep else Replace(Last(b));
      }
      script := front + [edit];
      assert Front(script) == front && Last(script) == edit;
      assert b != "" ==> b == Front(b) + [Last(b)];
    }
  }

  lemma {:induction false} NoScriptBeats(a: string, b: string, script: seq<Edit>)
    requires Apply(a, script) == Some(b)
    ensures Dist(a, b) <= Cost(script)
    decreases |script|
  {
    if script != [] {
      var front := Front(script);
      match Last(script)
      case Delete =>
        NoScriptBeats(Front(a), b, front);
        AtMostOneApart(a, b);
      case Insert(c) =>
        var b' := Apply(a, front).value;
        assert Front(b) == b';
        NoScriptBeats(a, b', front);
        AtMostOneApart(a, b);
      case Keep =>
        var b' := Apply(Front(a), front).value;
        assert Front(b) == b' && Last(b) == Last(a);
        NoScriptBeats(Front(a), b', front);
      case Replace(c) =>
        var b' := Apply(Front(a), front).value;
        assert Front(b) == b';
        NoScriptBeats(Front(a), b', front);
    }
  }

  lemma AtMostOneApart(a: string, b: string)
    ensures a != "" ==> Dist(a, b) <= Dist(Front(a), b) + 1
    ensures b != "" ==> Dist(a, b) <= Dist(a, Front(b)) + 1
  {
  }

  /** The distance is the cost of the cheapest script turning a into b. */
  lemma DistIsCheapestScript(a: string, b: string)
    ensures exists script :: Apply(a, script) == Some(b) && Cost(script) == Dist(a, b)
    ensures forall script :: Apply(a, script) == Some(b) ==> Dist(a, b) <= Cost(script)
  {
    var script := SomeScriptAchieves(a, b);
    forall script | Apply(a, script) == Some(b)
      ensures Dist(a, b) <= Cost(script)
    {
      NoScriptBeats(a, b, script);
    }
  }

  // ---------- a metric ----------

  lemma {:induction false} DistSymmetric(a: string, b: string)
    ensures Dist(a, b) == Dist(b, a)
    decreases |a| + |b|
  {
    if a != "" && b != "" {
      DistSymmetric(a, Front(b));
      DistSymmetric(Front(a), b);
      DistSymmetric(Front(a), Front(b));
    }
  }

  lemma {:induction false} DistZeroIsEqual(a: string, b: string)
    ensures Dist(a, b) == 0 <==> a == b
    decreases |a| + |b|
  {
    if a != "" && b != "" {
      DistZeroIsEqual(Front(a), Front(b));
      assert a == Front(a) + [Last(a)] && b == Front(b) + [Last(b)];
      if a == b {
        assert Front(a) == Front(b);
      }
    }
  }

  lemma {:induction false} DistBounds(a: string, b: string)
    ensures Max(|a|, |b|) - Min(|a|, |b|) <= Dist(a, b) <= Max(|a|, |b|)
    decreases |a| + |b|
  {
    if a != "" && b != "" {
      DistBounds(a, Front(b));
      DistBounds(Front(a), b);
      DistBounds(Front(a), Front(b));
    }
  }

  lemma {:induction false} DistTriangle(a: string, b: string, c: string)
    ensures Dist(a, c) <= Dist(a, b) + Dist(b, c)
    decreases |a| + |b| + |c|
  {
    if a == "" || b == "" || c == "" {
      DistBounds(a, b);
      DistBounds(b, c);
      DistBounds(a, c);
    } else {
      AtMostOneApart(a, c);
      DistTriangle(Front(a), b, c);
      DistTriangle(a, b, Front(c));
      DistTriangle(a, Front(b), c);
      DistTriangle(a, Front(b), Front(c));
      DistTriangle(Front(a), Front(b), c);
      DistTriangle(Front(a), Front(b), Front(c));
    }
  }

  // ---------- the two-row table ----------

  /** The first j + 1 entries of the row for a. */
  predicate IsRow(row: seq<int>, a: string, b: string, j: nat) {
    j <= |b| < |row| && forall k :: 0 <= k <= j ==> row[k] == Dist(a, b[..k])
  }

  lemma EntryFrom(a: string, b: string, left: nat, up: nat, diagonal: nat)
    requires a != "" && b != ""
    requires left == Dist(a, Front(b)) && up == Dist(Front(a), b) && diagonal == Dist(Front(a), Front(b))
    ensures Dist(a, b) == Min(Min(left + 1, up + 1), diagonal + if Last(a) == Last(b) then 0 else 1)
  {
  }

  lemma NextEntry(ar: string, br: string, i: nat, j: nat, left: nat, up: nat, diagonal: nat)
    requires 1 <= i <= |ar| && 1 <= j <= |br|
    requires left == Dist(ar[..i], br[..j - 1]) && up == Dist(ar[..i - 1], br[..j])
    requires diagonal == Dist(ar[..i - 1], br[..j - 1])
    ensures Dist(ar[..i], br[..j]) ==
            Min(Min(left + 1, up + 1), diagonal + if ar[i - 1] == br[j - 1] then 0 else 1)
  {
    assert Front(ar[..i]) == ar[..i - 1] && Front(br[..j]) == br[..j - 1];
    EntryFrom(ar[..i], br[..j], left, up, diagonal);
  }

  method FillRow(ar: string, br: string, i: nat, prev: array<int>, curr: array<int>)
    requires prev != curr && prev.Length == curr.Length == |br| + 1 && 1 <= i <= |ar|
    requires IsRow(prev[..], ar[..i - 1], br, |br|)
    modifies curr
    ensures IsRow(curr[..], ar[..i], br, |br|)
  {
    curr[0] := i;
    for j := 1 to |br| + 1
      invariant IsRow(curr[..], ar[..i], br, j - 1)
    {
      var cost := if ar[i - 1] == br[j - 1] then 0 else 1;
      assert curr[..][j - 1] == curr[j - 1] && prev[..][j] == prev[j] && prev[..][j - 1] == prev[j - 1];
      NextEntry(ar, br, i, j, curr[j - 1], prev[j], prev[j - 1]);
      var best := if curr[j - 1] + 1 < prev[j] + 1 then curr[j - 1] + 1 else prev[j] + 1;
      curr[j] := if best < prev[j - 1] + cost then best else prev[j - 1] + cost;
    }
  }

  lemma FirstRow(row: seq<int>, a: string, b: string)
    requires |row| == |b| + 1 && forall k :: 0 <= k <= |b| ==> row[k] == k
    ensures IsRow(row, a[..0], b, |b|)
  {
  }

  lemma LastEntry(row: seq<int>, a: string, b: string)
    requires IsRow(row, a[..|a|], b, |b|)
    ensures row[|b|] == Dist(a, b)
  {
    assert a[..|a|] == a && b[..|b|] == b;
  }

  method Levenshtein(a: string, b: string) returns (d: int)
    ensures d == Dist(a, b)
  {
    var ar, br := a, b;
    if |ar| < |br| {
      ar, br := br, ar;
    }
    DistSymmetric(a, b);
    var prev, curr := new int[|br| + 1], new int[|br| + 1];
    for j := 0 to |br| + 1
      invariant forall k :: 0 <= k < j ==> prev[k] == k
    {
      prev[j] := j;
    }
    FirstRow(prev[..], ar, br);
    for i := 1 to |ar| + 1
      invariant prev != curr && prev.Length == curr.Length == |br| + 1
      invariant fresh(prev) && fresh(curr)
      invariant IsRow(prev[..], ar[..i - 1], br, |br|)
    {
      FillRow(ar, br, i, prev, curr);
      prev, curr := curr, prev;
    }
    LastEntry(prev[..], ar, br);
    d := prev[|br|];
  }
}
