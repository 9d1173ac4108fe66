/** How regions split a global quota without talking to each other: floors, and a home for the remainder. */
module RegionSplit {
  import opened Numbers

  /** The rendezvous score of a region for a subject: a hash, about which nothing is assumed. */
  type Score = (string, string) -> nat

  // Names in a stable order.

  predicate Less(a: string, b: string) {
    if b == "" then false
    else if a == "" then true
    else a[0] < b[0] || (a[0] == b[0] && Less(a[1..], b[1..]))
  }

  lemma {:induction false} LessIrreflexive(a: string)
    ensures !Less(a, a)
  {
    if a != "" {
      LessIrreflexive(a[1..]);
    }
  }

  lemma {:induction false} LessTotal(a: string, b: string)
    ensures Less(a, b) || a == b || Less(b, a)
    ensures !(Less(a, b) && Less(b, a))
  {
    if a != "" && b != "" {
      LessTotal(a[1..], b[1..]);
      if a[0] == b[0] && a[1..] == b[1..] {
        assert a == [a[0]] + a[1..] == [b[0]] + b[1..] == b;
      }
    }
  }

  lemma {:induction false} LessTransitive(a: string, b: string, c: string)
    requires Less(a, b) && Less(b, c)
    ensures Less(a, c)
  {
    if a != "" && a[0] == b[0] && b[0] == c[0] {
      LessTransitive(a[1..], b[1..], c[1..]);
    }
  }

  ghost predicate Ascending(names: seq<string>) {
    forall i, j :: 0 <= i < j < |names| ==> Less(names[i], names[j])
  }

  /** names lists keys, each once, in ascending order. */
  ghost predicate Lists(names: seq<string>, keys: set<string>) {
    Ascending(names) && forall k :: k in keys <==> k in names
  }

  /** There is only one such list, whatever order the keys are found in. */
  lemma {:induction false} ListIsUnique(a: seq<string>, b: seq<string>, keys: set<string>)
    requires Lists(a, keys) && Lists(b, keys)
    ensures a == b
  {
    if a == [] && b == [] {
    } else if a == [] {
      FirstIsLeast(b, a, keys);
    } else {
      assert a[0] in a;
      FirstIsLeast(a, b, keys);
      FirstIsLeast(b, a, keys);
      LessTotal(a[0], b[0]);
      var rest := keys - {a[0]};
      TailLists(a, keys);
      TailLists(b, keys);
      ListIsUnique(a[1..], b[1..], rest);
      assert a == [a[0]] + a[1..] && b == [b[0]] + b[1..];
    }
  }

  lemma FirstIsLeast(a: seq<string>, b: seq<string>, keys: set<string>)
    requires Lists(a, keys) && Lists(b, keys) && a != []
    ensures b != [] && !Less(b[0], a[0])
  {
    assert a[0] in keys && a[0] in b && b[0] in keys && b[0] in a;
    var i :| 0 <= i < |a| && a[i] == b[0];
    LessTotal(a[0], b[0]);
  }

  lemma TailLists(a: seq<string>, keys: set<string>)
    requires Lists(a, keys) && a != []
    ensures Lists(a[1..], keys - {a[0]})
  {
    forall k ensures k in keys - {a[0]} <==> k in a[1..] {
      LessIrreflexive(a[0]);
      if k in a[1..] {
        var i :| 0 <= i < |a[1..]| && a[1..][i] == k;
        assert Less(a[0], a[i + 1]);
      }
      if k in a {
        var i :| 0 <= i < |a| && a[i] == k;
        if 0 < i {
          assert a[1..][i - 1] == k;
        }
      }
    }
  }

  /** Where x belongs in an ascending list that does not have it. */
  function Insert(names: seq<string>, x: string): (out: seq<string>)
    requires Ascending(names) && x !in names
    ensures Ascending(out) && forall k :: k in out <==> k == x || k in names
  {
    if names == [] then [x]
    else if Less(x, names[0]) then
      PrependAscends(x, names);
      [x] + names
    else
      var rest := Insert(names[1..], x);
      LessTotal(x, names[0]);
      assert forall k :: k in rest ==> Less(names[0], k) by {
        forall k | k in rest ensures Less(names[0], k) {
          if k != x {
            var i :| 0 <= i < |names[1..]| && names[1..][i] == k;
            assert Less(names[0], names[i + 1]);
          }
        }
      }
      assert names == [names[0]] + names[1..];
      [names[0]] + rest
  }

  lemma PrependAscends(x: string, names: seq<string>)
    requires Ascending(names) && names != [] && Less(x, names[0])
    ensures Ascending([x] + names)
  {
    var out := [x] + names;
    forall i, j | 0 <= i < j < |out| ensures Less(out[i], out[j]) {
      if i == 0 && j > 1 {
        LessTransitive(x, names[0], names[j - 1]);
      }
    }
  }

  /** Lists the regions; they are found in no particular order. */
  method Names(keys: set<string>) returns (out: seq<string>)
    ensures Lists(out, keys)
  {
    out := [];
    var left := keys;
    while left != {}
      invariant left <= keys
      invariant Lists(out, keys - left)
      decreases |left|
    {
      var k :| k in left;
      out := Insert(out, k);
      left := left - {k};
    }
    assert keys - left == keys;
  }

  lemma {:induction false} ListExists(keys: set<string>) returns (names: seq<string>)
    ensures Lists(names, keys)
    decreases |keys|
  {
    if keys == {} {
      names := [];
    } else {
      var k :| k in keys;
      var rest := ListExists(keys - {k});
      names := Insert(rest, k);
    }
  }

  ghost function NamesOf(keys: set<string>): (names: seq<string>)
    ensures Lists(names, keys)
  {
    assert exists names :: Lists(names, keys) by { var names := ListExists(keys); }
    var names :| Lists(names, keys);
    names
  }

  function Elems(names: seq<string>): set<string> {
    set k | k in names
  }

  // The home region.

  /** A beats b for a subject: a higher score, or the same score and an earlier name. */
  predicate Beats(score: Score, subject: string, a: string, b: string) {
    score(a, subject) > score(b, subject) || (score(a, subject) == score(b, subject) && Less(a, b))
  }

  /** The region that beats every other one. A region without a name wins only when it is alone. */
  ghost predicate IsHome(score: Score, subject: string, keys: set<string>, home: string) {
    if keys - {""} == {} then home == ""
    else home in keys - {""} && forall k :: k in keys - {""} && k != home ==> Beats(score, subject, home, k)
  }

  /** Every region computes the same home, whatever order it sees the others in. */
  lemma HomeIsUnique(score: Score, subject: string, keys: set<string>, a: string, b: string)
    requires IsHome(score, subject, keys, a) && IsHome(score, subject, keys, b)
    ensures a == b
  {
    if a != b {
      LessTotal(a, b);
    }
  }

  /** Adding a region moves only the subjects it now wins. */
  lemma AddingARegion(score: Score, subject: string, keys: set<string>, r: string, before: string, after: string)
    requires IsHome(score, subject, keys, before) && IsHome(score, subject, keys + {r}, after)
    ensures after == before || after == r
  {
    LessTotal(before, after);
    assert after != r && after != "" ==> after in keys + {r} - {""} && after in keys - {""};
    assert before != "" ==> before in keys - {""} && before in keys + {r} - {""};
  }

  method Home(score: Score, keys: set<string>, subject: string) returns (best: string)
    ensures IsHome(score, subject, keys, best)
  {
    var names := Names(keys);
    best := "";
    var bestScore := 0;
    for i := 0 to |names|
      invariant IsHome(score, subject, Elems(names[..i]), best)
      invariant best != "" ==> bestScore == score(best, subject)
    {
      var s := score(names[i], subject);
      HomeStep(score, subject, names, i, best);
      if best == "" || s > bestScore {
        best, bestScore := names[i], s;
      }
    }
    assert keys == Elems(names[..|names|]);
  }

  lemma HomeStep(score: Score, subject: string, names: seq<string>, i: nat, best: string)
    requires i < |names| && Ascending(names)
    requires IsHome(score, subject, Elems(names[..i]), best)
    ensures var next := if best == "" || score(names[i], subject) > score(best, subject) then names[i] else best;
            IsHome(score, subject, Elems(names[..i + 1]), next)
  {
    var seen, seen' := Elems(names[..i]), Elems(names[..i + 1]);
    assert names[..i + 1] == names[..i] + [names[i]];
    assert seen' == seen + {names[i]};
    if best == "" {
      assert seen - {""} == {};
      assert seen' - {""} == {names[i]} - {""};
    } else {
      assert best in names[..i];
      var j :| 0 <= j < i && names[j] == best;
      assert Less(best, names[i]) && names[i] != "";
      var next := if score(names[i], subject) > score(best, subject) then names[i] else best;
      forall k | k in seen' - {""} && k != next ensures Beats(score, subject, next, k) {
        assert k == names[i] || k == best || Beats(score, subject, best, k);
      }
    }
  }

  lemma HomeExists(score: Score, subject: string, keys: set<string>) returns (home: string)
    ensures IsHome(score, subject, keys, home)
  {
    var names := ListExists(keys);
    home := "";
    for i := 0 to |names|
      invariant IsHome(score, subject, Elems(names[..i]), home)
    {
      HomeStep(score, subject, names, i, home);
      home := if home == "" || score(names[i], subject) > score(home, subject) then names[i] else home;
    }
    assert keys == Elems(names[..|names|]);
  }

  ghost function HomeOf(score: Score, subject: string, keys: set<string>): (home: string)
    ensures IsHome(score, subject, keys, home)
  {
    assert exists h :: IsHome(score, subject, keys, h) by { var h := HomeExists(score, subject, keys); }
    var home :| IsHome(score, subject, keys, home);
    home
  }

  // The split.

  function Floor(q: int, share: real): int {
    (q as real * Clamp(share)).Floor
  }

  function SumFloors(q: int, floors: map<string, real>, names: seq<string>): int
    requires forall n :: n in names ==> n in floors
  {
    if names == [] then 0
    else SumFloors(q, floors, names[..|names| - 1]) + Floor(q, floors[names[|names| - 1]])
  }

  /** A region's allocation: its floor, and the remainder when it is the subject's home. */
  ghost function BaseOf(score: Score, q: int, floors: map<string, real>, region: string, subject: string): int {
    if region !in floors then 0
    else
      Floor(q, floors[region]) +
      if HomeOf(score, subject, floors.Keys) == region then q - SumFloors(q, floors, NamesOf(floors.Keys)) else 0
  }

  method Base(score: Score, q: int, floors: map<string, real>, region: string, subject: string) returns (base: int)
    ensures base == BaseOf(score, q, floors, region, subject)
  {
    if region !in floors {
      return 0;
    }
    var names := Names(floors.Keys);
    ListIsUnique(names, NamesOf(floors.Keys), floors.Keys);
    var sum := 0;
    for i := 0 to |names|
      invariant sum == SumFloors(q, floors, names[..i])
    {
      assert names[..i + 1][..i] == names[..i];
      sum := sum + Floor(q, floors[names[i]]);
    }
    assert names[..|names|] == names;
    base := Floor(q, floors[region]);
    var home := Home(score, floors.Keys, subject);
    HomeIsUnique(score, subject, floors.Keys, home, HomeOf(score, subject, floors.Keys));
    if home == region {
      base := base + (q - sum);
    }
  }

  ghost function SumBases(score: Score, q: int, floors: map<string, real>, subject: string, names: seq<string>): int {
    if names == [] then 0
    else
      SumBases(score, q, floors, subject, names[..|names| - 1])
      + BaseOf(score, q, floors, names[|names| - 1], subject)
  }

  lemma {:induction false} SumOfBases(score: Score, q: int, floors: map<string, real>, subject: string,
                                      names: seq<string>)
    requires Ascending(names) && forall n :: n in names ==> n in floors
    ensures var home := HomeOf(score, subject, floors.Keys);
            SumBases(score, q, floors, subject, names) ==
            SumFloors(q, floors, names) + if home in names then q - SumFloors(q, floors, NamesOf(floors.Keys)) else 0
  {
    if names != [] {
      var last, rest := names[|names| - 1], names[..|names| - 1];
      assert forall n :: n in rest ==> n in names;
      SumOfBases(score, q, floors, subject, rest);
      if last in rest {
        var i :| 0 <= i < |rest| && rest[i] == last;
        LessIrreflexive(last);
      }
      assert names == rest + [last];
    }
  }

  /** Coordination-free split: over all regions, whatever their shares, the allocations of a subject sum to exactly
      the quota. */
  lemma BasesSumToQuota(score: Score, q: int, floors: map<string, real>, subject: string)
    requires floors.Keys != {}
    ensures SumBases(score, q, floors, subject, NamesOf(floors.Keys)) == q
  {
    var names, home := NamesOf(floors.Keys), HomeOf(score, subject, floors.Keys);
    assert forall n :: n in names ==> n in floors;
    SumOfBases(score, q, floors, subject, names);
    if floors.Keys - {""} == {} {
      var k :| k in floors.Keys;
      assert k == "" || k in floors.Keys - {""};
    }
    assert home in floors.Keys;
  }

  function SumShares(floors: map<string, real>, names: seq<string>): real
    requires forall n :: n in names ==> n in floors
  {
    if names == [] then 0.0
    else SumShares(floors, names[..|names| - 1]) + Clamp(floors[names[|names| - 1]])
  }

  lemma {:induction false} FloorsWithinShares(q: int, floors: map<string, real>, names: seq<string>)
    requires 0 <= q && forall n :: n in names ==> n in floors
    ensures SumFloors(q, floors, names) as real <= q as real * SumShares(floors, names)
  {
    if names != [] {
      var last, rest := names[|names| - 1], names[..|names| - 1];
      assert forall n :: n in rest ==> n in names;
      FloorsWithinShares(q, floors, rest);
      var a, b := SumShares(floors, rest), Clamp(floors[last]);
      assert q as real * (a + b) == q as real * a + q as real * b;
    }
  }

  lemma FloorNonNegative(q: int, share: real)
    requires 0 <= q
    ensures 0 <= Floor(q, share)
  {}

  /** When the shares sum to at most one no region is allocated less than nothing. */
  lemma BasesNonNegative(score: Score, q: int, floors: map<string, real>, region: string, subject: string)
    requires 0 <= q && SumShares(floors, NamesOf(floors.Keys)) <= 1.0
    ensures 0 <= BaseOf(score, q, floors, region, subject)
  {
    hide Floor, SumFloors, SumShares, IsHome;
    var names := NamesOf(floors.Keys);
    FloorsWithinShares(q, floors, names);
    MulOrder(SumShares(floors, names), 1.0, q as real);
    assert q as real * SumShares(floors, names) <= q as real;
    if region in floors {
      FloorNonNegative(q, floors[region]);
    }
  }
}
