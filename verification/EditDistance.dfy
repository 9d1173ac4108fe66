/** Suggestions for misspelt config fields: edit distance with two rows, against what it means. */
module EditDistance {
  import opened Numbers

  // The distance, recursively.

  function Cost(x: char, y: char): nat {
    if x == y then 0 else 1
  }

  function Front(s: string): string
    requires s != ""
  {
    s[..|s| - 1]
  }

  function Last(s: string): char
    requires s != ""
  {
    s[|s| - 1]
  }

  /** Levenshtein's distance: the last characters are deleted, inserted, or matched up. */
  function Lev(a: string, b: string): nat
    decreases |a| + |b|
  {
    if a == "" then |b|
    else if b == "" then |a|
    else Min(Min(Lev(Front(a), b) + 1, Lev(a, Front(b)) + 1), Lev(Front(a), Front(b)) + Cost(Last(a), Last(b)))
  }

  // The distance, as the least number of edits.

  datatype Edit = Insert(at: nat, c: char) | Delete(at: nat) | Substitute(at: nat, c: char)

  predicate Applies(s: string, e: Edit) {
    if e.Insert? then e.at <= |s| else e.at < |s|
  }

  function Apply(s: string, e: Edit): string
    requires Applies(s, e)
  {
    match e
    case Insert(at, c) => s[..at] + [c] + s[at..]
    case Delete(at) => s[..at] + s[at + 1..]
    case Substitute(at, c) => s[..at] + [c] + s[at + 1..]
  }

  /** A script of edits, each applied to what the ones before it made. */
  predicate Makes(a: string, script: seq<Edit>, b: string)
    decreases |script|
  {
    if script == [] then a == b
    else Applies(a, script[0]) && Makes(Apply(a, script[0]), script[1..], b)
  }

  lemma {:induction false} MakesThen(a: string, first: seq<Edit>, b: string, second: seq<Edit>, c: string)
    requires Makes(a, first, b) && Makes(b, second, c)
    ensures Makes(a, first + second, c)
    decreases |first|
  {
    if first == [] {
      assert first + second == second;
    } else {
      MakesThen(Apply(a, first[0]), first[1..], b, second, c);
      assert (first + second)[1..] == first[1..] + second;
    }
  }

  /** A script still works in front of more characters. */
  lemma {:induction false} MakesBefore(a: string, script: seq<Edit>, b: string, tail: string)
    requires Makes(a, script, b)
    ensures Makes(a + tail, script, b + tail)
    decreases |script|
  {
    hide Apply, Applies;
    if script != [] {
      ApplyBefore(a, script[0], tail);
      MakesBefore(Apply(a, script[0]), script[1..], b, tail);
    }
  }

  lemma ApplyBefore(a: string, e: Edit, tail: string)
    requires Applies(a, e)
    ensures Applies(a + tail, e) && Apply(a + tail, e) == Apply(a, e) + tail
  {
    assert (a + tail)[..e.at] == a[..e.at] && (a + tail)[e.at..] == a[e.at..] + tail;
    assert !e.Insert? ==> (a + tail)[e.at + 1..] == a[e.at + 1..] + tail;
  }

  /** Some script is as short as the distance. */
  lemma {:induction false} ScriptExists(a: string, b: string) returns (script: seq<Edit>)
    ensures Makes(a, script, b) && |script| == Lev(a, b)
    decreases |a| + |b|
  {
    hide Makes, Applies, Apply;
    if a == "" && b == "" {
      script := [];
      MakesNothing(a);
    } else if b == "" || (a != "" && Lev(a, b) == Lev(Front(a), b) + 1) {
      var rest := ScriptExists(Front(a), b);
      DeleteLast(a);
      MakesThen(a, [Delete(|a| - 1)], Front(a), rest, b);
      script := [Delete(|a| - 1)] + rest;
    } else if a == "" || Lev(a, b) == Lev(a, Front(b)) + 1 {
      var rest := ScriptExists(a, Front(b));
      InsertLast(Front(b), Last(b));
      assert b == Front(b) + [Last(b)];
      MakesThen(a, rest, Front(b), [Insert(|b| - 1, Last(b))], b);
      script := rest + [Insert(|b| - 1, Last(b))];
    } else {
      script := MatchLast(a, b);
    }
  }

  lemma {:induction false} MatchLast(a: string, b: string) returns (script: seq<Edit>)
    requires a != "" && b != "" && Lev(a, b) == Lev(Front(a), Front(b)) + Cost(Last(a), Last(b))
    ensures Makes(a, script, b) && |script| == Lev(a, b)
    decreases |a| + |b|, 0
  {
    hide Makes, Applies, Apply, Lev;
    var rest := ScriptExists(Front(a), Front(b));
    MakesBefore(Front(a), rest, Front(b), [Last(b)]);
    assert b == Front(b) + [Last(b)];
    if Last(a) == Last(b) {
      script := rest;
      assert a == Front(a) + [Last(b)];
    } else {
      SubstituteLast(a, Last(b));
      MakesThen(a, [Substitute(|a| - 1, Last(b))], Front(a) + [Last(b)], rest, b);
      script := [Substitute(|a| - 1, Last(b))] + rest;
    }
  }

  lemma MakesNothing(a: string)
    ensures Makes(a, [], a)
  {}

  lemma DeleteLast(a: string)
    requires a != ""
    ensures Makes(a, [Delete(|a| - 1)], Front(a))
  {}

  lemma InsertLast(a: string, c: char)
    ensures Makes(a, [Insert(|a|, c)], a + [c])
  {}

  lemma SubstituteLast(a: string, c: char)
    requires a != ""
    ensures Makes(a, [Substitute(|a| - 1, c)], Front(a) + [c])
  {}

  // No script is shorter.

  lemma {:induction false} LevBounds(a: string, b: string)
    ensures Lev(a, b) <= |a| + |b| && |a| <= |b| + Lev(a, b) && |b| <= |a| + Lev(a, b)
    decreases |a| + |b|
  {
    if a != "" && b != "" {
      LevBounds(Front(a), b);
      LevBounds(a, Front(b));
      LevBounds(Front(a), Front(b));
    }
  }

  lemma LevStep(a: string, b: string)
    requires a != "" && b != ""
    ensures Lev(a, b) <= Lev(Front(a), b) + 1 && Lev(a, b) <= Lev(a, Front(b)) + 1
    ensures Lev(a, b) <= Lev(Front(a), Front(b)) + Cost(Last(a), Last(b))
    ensures Lev(a, b) == Lev(Front(a), b) + 1 || Lev(a, b) == Lev(a, Front(b)) + 1
            || Lev(a, b) == Lev(Front(a), Front(b)) + Cost(Last(a), Last(b))
  {}

  lemma {:induction false} Triangle(a: string, b: string, c: string)
    ensures Lev(a, c) <= Lev(a, b) + Lev(b, c)
    decreases |a| + |b| + |c|
  {
    if a == "" || b == "" || c == "" {
      LevBounds(a, b);
      LevBounds(b, c);
      LevBounds(a, c);
    } else {
      hide Lev;
      LevStep(a, b);
      LevStep(b, c);
      LevStep(a, c);
      Triangle(Front(a), b, c);
      Triangle(a, b, Front(c));
      Triangle(a, Front(b), c);
      Triangle(a, Front(b), Front(c));
      Triangle(Front(a), Front(b), c);
      Triangle(Front(a), Front(b), Front(c));
    }
  }

  lemma {:induction false} LevSelf(a: string)
    ensures Lev(a, a) == 0
  {
    if a != "" {
      LevSelf(Front(a));
    }
  }

  lemma {:induction false} LevTail(x: string, y: string, tail: string)
    ensures Lev(x + tail, y + tail) <= Lev(x, y)
    decreases |tail|
  {
    if tail == "" {
      assert x + tail == x && y + tail == y;
    } else {
      LevTail(x, y, Front(tail));
      assert Front(x + tail) == x + Front(tail) && Front(y + tail) == y + Front(tail);
      LevStep(x + tail, y + tail);
    }
  }

  /** One edit is at most one away. */
  lemma OneEdit(s: string, e: Edit)
    requires Applies(s, e)
    ensures Lev(s, Apply(s, e)) <= 1
  {
    hide Lev;
    var head := s[..e.at];
    LevSelf(head);
    match e
    case Insert(at, c) =>
      LevTail(head, head + [c], s[at..]);
      NextTo(head, c, c);
      assert s == head + s[at..];
    case Delete(at) =>
      LevTail(head + [s[at]], head, s[at + 1..]);
      NextTo(head, s[at], s[at]);
      assert s == head + [s[at]] + s[at + 1..];
    case Substitute(at, c) =>
      LevTail(head + [s[at]], head + [c], s[at + 1..]);
      NextTo(head, s[at], c);
      assert s == head + [s[at]] + s[at + 1..];
  }

  lemma NextTo(s: string, x: char, y: char)
    ensures Lev(s, s + [y]) <= 1 && Lev(s + [x], s) <= 1 && Lev(s + [x], s + [y]) <= 1
  {
    LevSelf(s);
    assert Front(s + [x]) == s && Front(s + [y]) == s;
  }

  /** Every script from one word to another is at least as long as their distance. */
  lemma {:induction false} NoShorterScript(a: string, script: seq<Edit>, b: string)
    requires Makes(a, script, b)
    ensures Lev(a, b) <= |script|
    decreases |script|
  {
    if script == [] {
      LevSelf(a);
    } else {
      hide Lev;
      var next := Apply(a, script[0]);
      NoShorterScript(next, script[1..], b);
      OneEdit(a, script[0]);
      Triangle(a, next, b);
    }
  }

  /** The distance is the length of the shortest script. */
  lemma DistanceIsShortestScript(a: string, b: string)
    ensures exists script :: Makes(a, script, b) && |script| == Lev(a, b)
    ensures forall script :: Makes(a, script, b) ==> Lev(a, b) <= |script|
  {
    hide Lev, Makes;
    var script := ScriptExists(a, b);
    forall other | Makes(a, other, b) { NoShorterScript(a, other, b); }
  }

  // The two rows.

  /** A row holds the distances of a prefix of a to every prefix of b up to n. */
  ghost predicate Row(row: seq<int>, a: string, i: nat, b: string, n: nat)
    requires i <= |a| && n <= |row| && n <= |b| + 1
  {
    forall j :: 0 <= j < n ==> row[j] == Lev(a[..i], b[..j])
  }

  lemma RowStep(a: string, i: nat, b: string, j: nat)
    requires 1 <= i <= |a| && 1 <= j <= |b|
    ensures Lev(a[..i], b[..j]) ==
            Min(Min(Lev(a[..i - 1], b[..j]) + 1, Lev(a[..i], b[..j - 1]) + 1),
                Lev(a[..i - 1], b[..j - 1]) + Cost(a[i - 1], b[j - 1]))
  {
    hide Lev;
    assert Front(a[..i]) == a[..i - 1] && Front(b[..j]) == b[..j - 1];
    assert Last(a[..i]) == a[i - 1] && Last(b[..j]) == b[j - 1];
    LevStep(a[..i], b[..j]);
  }

  lemma RowStart(a: string, i: nat)
    requires i <= |a|
    ensures Lev(a[..i], "") == i
  {}

  /** The distance between two words, keeping two rows of the table. */
  method Distance(a: string, b: string) returns (d: int)
    ensures d == Lev(a, b)
  {
    hide Lev;
    var prev, cur := new int[|b| + 1], new int[|b| + 1];
    for j := 0 to |b| + 1
      invariant forall k :: 0 <= k < j ==> prev[k] == k
    {
      prev[j] := j;
    }
    FirstRow(prev[..], a, b);
    for i := 1 to |a| + 1
      invariant prev.Length == cur.Length == |b| + 1 && prev != cur && fresh(prev) && fresh(cur)
      invariant Row(prev[..], a, i - 1, b, |b| + 1)
    {
      NextRow(prev, cur, a, i, b);
      prev, cur := cur, prev;
    }
    d := prev[|b|];
    assert prev[..][|b|] == d && a[..|a|] == a && b[..|b|] == b;
  }

  lemma FirstRow(row: seq<int>, a: string, b: string)
    requires |row| == |b| + 1 && forall k :: 0 <= k < |row| ==> row[k] == k
    ensures Row(row, a, 0, b, |b| + 1)
  {}

  method NextRow(prev: array<int>, cur: array<int>, a: string, i: nat, b: string)
    requires prev.Length == cur.Length == |b| + 1 && prev != cur && 1 <= i <= |a|
    requires Row(prev[..], a, i - 1, b, |b| + 1)
    modifies cur
    ensures Row(cur[..], a, i, b, |b| + 1)
  {
    hide Lev;
    cur[0] := i;
    RowStart(a, i);
    assert b[..0] == "";
    for j := 1 to |b| + 1
      invariant Row(cur[..], a, i, b, j) && prev[..] == old(prev[..])
    {
      var cost := 1;
      if a[i - 1] == b[j - 1] {
        cost := 0;
      }
      RowStep(a, i, b, j);
      assert prev[j] == prev[..][j] && prev[j - 1] == prev[..][j - 1] && cur[j - 1] == cur[..][j - 1];
      cur[j] := Min(Min(prev[j] + 1, cur[j - 1] + 1), prev[j - 1] + cost);
    }
  }

  /** The first of the closest candidates, if it is at most two edits away. */
  ghost predicate Suggests(word: string, candidates: seq<string>, best: string) {
    if forall i :: 0 <= i < |candidates| ==> 2 < Lev(word, candidates[i]) then best == ""
    else exists at :: FirstClosest(word, candidates, at) && best == candidates[at] && Lev(word, best) <= 2
  }

  ghost predicate FirstClosest(word: string, candidates: seq<string>, at: int) {
    && 0 <= at < |candidates|
    && (forall i :: 0 <= i < |candidates| ==> Lev(word, candidates[at]) <= Lev(word, candidates[i]))
    && (forall i :: 0 <= i < at ==> Lev(word, candidates[at]) < Lev(word, candidates[i]))
  }

  /** What to suggest for a word, compared in lower case. */
  method Suggest(typed: string, candidates: seq<string>, lower: string -> string) returns (best: string)
    ensures Suggests(lower(typed), candidates, best)
  {
    hide Lev;
    var word := lower(typed);
    best := "";
    var bestD := 3;
    ghost var at := -1;
    for n := 0 to |candidates|
      invariant at < 0 ==> best == "" && bestD == 3
      invariant 0 <= at ==> at < n && best == candidates[at] && bestD == Lev(word, best) < 3
      invariant forall i :: 0 <= i < n ==> bestD <= Lev(word, candidates[i])
      invariant forall i :: 0 <= i < at ==> bestD < Lev(word, candidates[i])
    {
      var d := Distance(word, candidates[n]);
      if d < bestD {
        best, bestD, at := candidates[n], d, n;
      }
    }
    assert 0 <= at ==> FirstClosest(word, candidates, at);
  }
}
