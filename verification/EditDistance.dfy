/** The suggestion for an unknown configuration key (src/core/ConfigSchema.cpp:441-475): the two-row
    edit distance and the nearest known key. */
module EditDistances {
  function Least(x: nat, y: nat, z: nat): nat { if x <= y && x <= z then x else if y <= z then y else z }

  function Init(s: string): string
    requires s != ""
  {
    s[..|s| - 1]
  }
  function Last(s: string): char
    requires s != ""
  {
    s[|s| - 1]
  }

  /** The Levenshtein distance. */
  function Distance(a: string, b: string): nat
    decreases |a| + |b|
  {
    if a == "" then |b|
    else if b == "" then |a|
    else Least(Distance(Init(a), b) + 1, Distance(a, Init(b)) + 1, Distance(Init(a), Init(b)) + if Last(a) == Last(b)
               then 0 else 1)
  }

  // ----- what the distance means: edit scripts

  /** One step of a script, applied from the ends of both strings. */
  datatype Edit = Keep | Replace | Insert | Delete

  /** A script turns a into b. */
  predicate Turns(script: seq<Edit>, a: string, b: string) {
    if script == [] then a == "" && b == ""
    else
      var rest := script[..|script| - 1];
      match script[|script| - 1]
      case Keep => a != "" && b != "" && Last(a) == Last(b) && Turns(rest, Init(a), Init(b))
      case Replace => a != "" && b != "" && Turns(rest, Init(a), Init(b))
      case Insert => b != "" && Turns(rest, a, Init(b))
      case Delete => a != "" && Turns(rest, Init(a), b)
  }

  function Cost(script: seq<Edit>): nat {
    if script == [] then 0 else Cost(script[..|script| - 1]) + if script[|script| - 1] == Keep then 0 else 1
  }

  /** The distance is short of no script. */
  lemma {:induction false} NoCheaperScript(script: seq<Edit>, a: string, b: string)
    requires Turns(script, a, b)
    ensures Distance(a, b) <= Cost(script)
    decreases |script|
  {
    if script != [] {
      var rest := script[..|script| - 1];
      match script[|script| - 1]
      case Keep => NoCheaperScript(rest, Init(a), Init(b));
      case Replace => NoCheaperScript(rest, Init(a), Init(b));
      case Insert => NoCheaperScript(rest, a, Init(b)); OneLonger(a, b);
      case Delete => NoCheaperScript(rest, Init(a), b); OneLonger(a, b);
    }
  }

  /** Dropping a last character is one edit. */
  lemma {:induction false} OneLonger(a: string, b: string)
    ensures b != "" ==> Distance(a, b) <= Distance(a, Init(b)) + 1
    ensures a != "" ==> Distance(a, b) <= Distance(Init(a), b) + 1
  {
  }

  /** Some script achieves it. */
  lemma {:induction false} CheapestScript(a: string, b: string) returns (script: seq<Edit>)
    ensures Turns(script, a, b) && Cost(script) == Distance(a, b)
    decreases |a| + |b|
  {
    if a == "" && b == "" {
      script := [];
    } else {
      var rest: seq<Edit>, edit: Edit;
      if a == "" {
        rest := CheapestScript(a, Init(b));
        edit := Insert;
      } else if b == "" {
        rest := CheapestScript(Init(a), b);
        edit := Delete;
      } else if Distance(a, b) == Distance(Init(a), b) + 1 {
        rest := CheapestScript(Init(a), b);
        edit := Delete;
      } else if Distance(a, b) == Distance(a, Init(b)) + 1 {
        rest := CheapestScript(a, Init(b));
        edit := Insert;
      } else {
        rest := CheapestScript(Init(a), Init(b));
        edit := if Last(a) == Last(b) then Keep else Replace;
      }
      script := rest + [edit];
      Extended(rest, edit, a, b);
      hide Turns, Cost;
    }
  }

  /** A script with one more step. */
  lemma Extended(rest: seq<Edit>, edit: Edit, a: string, b: string)
    ensures Cost(rest + [edit]) == Cost(rest) + if edit == Keep then 0 else 1
    ensures Turns(rest + [edit], a, b) <==>
      match edit
      case Keep => a != "" && b != "" && Last(a) == Last(b) && Turns(rest, Init(a), Init(b))
      case Replace => a != "" && b != "" && Turns(rest, Init(a), Init(b))
      case Insert => b != "" && Turns(rest, a, Init(b))
      case Delete => a != "" && Turns(rest, Init(a), b)
  {
    var script := rest + [edit];
    assert script[..|script| - 1] == rest && script[|script| - 1] == edit;
  }

  lemma {:induction false} DistanceSymmetric(a: string, b: string)
    ensures Distance(a, b) == Distance(b, a)
    decreases |a| + |b|
  {
    if a != "" && b != "" {
      DistanceSymmetric(Init(a), b);
      DistanceSymmetric(a, Init(b));
      DistanceSymmetric(Init(a), Init(b));
    }
  }

  /** Zero only for equal strings, and never more than the longer length. */
  lemma DistanceBounds(a: string, b: string)
    ensures Distance(a, b) == 0 <==> a == b
    ensures |a| - |b| <= Distance(a, b) && |b| - |a| <= Distance(a, b) <= |a| + |b|
    ensures Distance(a, b) <= |a| || Distance(a, b) <= |b|
  {
    ZeroIffEqual(a, b);
    LengthBounds(a, b);
    hide Distance;
  }

  lemma {:induction false} LengthBounds(a: string, b: string)
    ensures |a| - |b| <= Distance(a, b) && |b| - |a| <= Distance(a, b)
    ensures Distance(a, b) <= |a| || Distance(a, b) <= |b|
    decreases |a| + |b|
  {
    if a != "" && b != "" {
      LengthBounds(Init(a), b);
      LengthBounds(a, Init(b));
      LengthBounds(Init(a), Init(b));
    }
  }

  lemma {:induction false} ZeroIffEqual(a: string, b: string)
    ensures Distance(a, b) == 0 <==> a == b
    decreases |a|
  {
    if a != "" && b != "" {
      ZeroIffEqual(Init(a), Init(b));
      assert a == Init(a) + [Last(a)] && b == Init(b) + [Last(b)];
    }
  }

  // ----- the two-row method

  /** The distance of the first i and j characters. */
  function Cell(a: string, b: string, i: nat, j: nat): nat
    requires i <= |a| && j <= |b|
  {
    Distance(a[..i], b[..j])
  }

  lemma CellStep(a: string, b: string, i: nat, j: nat)
    requires i <= |a| && j <= |b|
    ensures i == 0 ==> Cell(a, b, i, j) == j
    ensures j == 0 ==> Cell(a, b, i, j) == i
    ensures i > 0 && j > 0 ==> Cell(a, b, i, j) == Least(Cell(a, b, i - 1, j) + 1, Cell(a, b, i, j - 1) + 1,
                                                      Cell(a, b, i - 1, j - 1) + if a[i - 1] == b[j - 1] then 0 else 1)
  {
    if i > 0 && j > 0 {
      assert Init(a[..i]) == a[..i - 1] && Init(b[..j]) == b[..j - 1];
    }
  }

  method EditDistance(a: string, b: string) returns (d: nat)
    ensures d == Distance(a, b)
  {
    var na, nb := |a|, |b|;
    var prev, curr := new nat[nb + 1], new nat[nb + 1];
    hide Distance, Cell;
    for j: nat := 0 to nb + 1
      invariant forall m: nat :: m < j ==> prev[m] == Cell(a, b, 0, m)
    {
      CellStep(a, b, 0, j);
      prev[j] := j;
    }
    for i: nat := 1 to na + 1
      invariant prev != curr && prev.Length == curr.Length == nb + 1 && fresh(prev) && fresh(curr)
      invariant forall m: nat :: m <= nb ==> prev[m] == Cell(a, b, i - 1, m)
    {
      CellStep(a, b, i, 0);
      curr[0] := i;
      for j: nat := 1 to nb + 1
        invariant forall m: nat :: m < j ==> curr[m] == Cell(a, b, i, m)
        invariant forall m: nat :: m <= nb ==> prev[m] == Cell(a, b, i - 1, m)
      {
        CellStep(a, b, i, j);
        var sub := prev[j - 1] + if a[i - 1] == b[j - 1] then 0 else 1;
        curr[j] := Least(prev[j] + 1, curr[j - 1] + 1, sub);
      }
      prev, curr := curr, prev;
    }
    WholeCell(a, b);
    return prev[nb];
  }

  lemma WholeCell(a: string, b: string)
    ensures Cell(a, b, |a|, |b|) == Distance(a, b)
  {
    assert a[..|a|] == a && b[..|b|] == b;
  }

  // ----- the nearest key

  const NO_DISTANCE := 0xffff_ffff_ffff_ffff

  /** m is the first name at the least distance from key, among the first count names. */
  ghost predicate FirstNearest(key: string, names: seq<string>, count: nat, m: nat)
    requires count <= |names|
  {
    && m < count
    && (forall n :: 0 <= n < count ==> Distance(key, names[m]) <= Distance(key, names[n]))
    && (forall n :: 0 <= n < m ==> Distance(key, names[m]) < Distance(key, names[n]))
  }

  lemma FirstIsOne(key: string, names: seq<string>, m: nat, n: nat)
    requires FirstNearest(key, names, |names|, m) && FirstNearest(key, names, |names|, n)
    ensures m == n
  {
    assert Distance(key, names[m]) == Distance(key, names[n]);
  }

  /** One more name looked at. */
  lemma NearestStep(key: string, names: seq<string>, count: nat, m: nat)
    requires count < |names| && (count > 0 ==> FirstNearest(key, names, count, m))
    ensures FirstNearest(key, names, count + 1, if count == 0 || Distance(key, names[count]) < Distance(key, names[m])
                         then count else m)
  {
    hide Distance;
  }

  function Allowed(key: string): nat { if |key| / 3 > 2 then |key| / 3 else 2 }

  /** The suggestion: the first nearest name when it is near enough, else none. Strings are shorter
      than the address space. */
  method NearestKey(key: string, names: seq<string>) returns (best: string)
    requires |key| < NO_DISTANCE && forall n :: 0 <= n < |names| ==> |names[n]| < NO_DISTANCE
    ensures forall m: nat :: FirstNearest(key, names, |names|, m) ==>
              best == if Distance(key, names[m]) <= Allowed(key) then names[m] else ""
    ensures names == [] ==> best == ""
    ensures names != [] ==> exists m: nat :: FirstNearest(key, names, |names|, m)
  {
    best := "";
    var bestDist := NO_DISTANCE;
    ghost var at: nat := 0;
    hide Distance, FirstNearest;
    for n: nat := 0 to |names|
      invariant n == 0 ==> best == "" && bestDist == NO_DISTANCE
      invariant n > 0 ==> at < n && FirstNearest(key, names, n, at) && best == names[at]
                          && bestDist == Distance(key, best)
    {
      DistanceBounds(key, names[n]);
      NearestStep(key, names, n, at);
      var d := EditDistance(key, names[n]);
      if d < bestDist {
        bestDist := d;
        best := names[n];
        at := n;
      }
    }
    forall m: nat | FirstNearest(key, names, |names|, m) ensures m == at { FirstIsOne(key, names, m, at); }
    if best != "" && bestDist <= (if |key| / 3 > 2 then |key| / 3 else 2) { return best; }
    return "";
  }
}
