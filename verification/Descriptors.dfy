/** The decision service's descriptors: matching a request against a tree of entries, and naming what matched. */
module Descriptors {
  import opened Ledger

  /** A configured entry; an empty value matches every value. */
  datatype Node<L> = Node(key: string, value: string, limit: Option<L>, entries: seq<Node<L>>)

  /** A key and a value of a request's descriptor. */
  datatype Pair = Pair(key: string, value: string)

  datatype Match<L> = Match(limitID: string, subject: string, limit: L)

  // Paths in the tree.

  function LevelAt<L>(root: seq<Node<L>>, path: seq<nat>): seq<Node<L>> {
    if path == [] then root
    else
      var level, last := LevelAt(root, path[..|path| - 1]), path[|path| - 1];
      if last < |level| then level[last].entries else []
  }

  ghost predicate InTree<L>(root: seq<Node<L>>, path: seq<nat>) {
    forall k :: 0 <= k < |path| ==> path[k] < |LevelAt(root, path[..k])|
  }

  function NodeAt<L>(root: seq<Node<L>>, path: seq<nat>, k: nat): Node<L>
    requires k < |path| && path[k] < |LevelAt(root, path[..k])|
  {
    LevelAt(root, path[..k])[path[k]]
  }

  /** The first entry of a level with exactly this key and value. */
  ghost predicate FirstAt<L>(level: seq<Node<L>>, key: string, value: string, i: nat) {
    && i < |level| && level[i].key == key && level[i].value == value
    && forall j :: 0 <= j < i ==> !(level[j].key == key && level[j].value == value)
  }

  ghost predicate Has<L>(level: seq<Node<L>>, key: string, value: string) {
    exists i :: 0 <= i < |level| && level[i].key == key && level[i].value == value
  }

  /** Which entry of a level a pair picks: an exact value wins over a wildcard. */
  ghost predicate Picks<L>(level: seq<Node<L>>, e: Pair, i: nat) {
    if Has(level, e.key, e.value) then FirstAt(level, e.key, e.value, i) else FirstAt(level, e.key, "", i)
  }

  ghost predicate Matches<L>(root: seq<Node<L>>, pairs: seq<Pair>, path: seq<nat>) {
    && |path| == |pairs|
    && forall k :: 0 <= k < |path| ==> Picks(LevelAt(root, path[..k]), pairs[k], path[k])
  }

  // Names.

  function Segment<L>(n: Node<L>): string {
    if n.value == "" then n.key else n.key + "=" + n.value
  }

  function Segments<L>(root: seq<Node<L>>, path: seq<nat>): (out: seq<string>)
    requires InTree(root, path)
    ensures |out| == |path| && forall k :: 0 <= k < |path| ==> out[k] == Segment(NodeAt(root, path, k))
  {
    seq(|path|, k requires 0 <= k < |path| => Segment(NodeAt(root, path, k)))
  }

  function Join(parts: seq<string>, sep: char): string {
    if parts == [] then ""
    else if |parts| == 1 then parts[0]
    else Join(parts[..|parts| - 1], sep) + [sep] + parts[|parts| - 1]
  }

  function Extend(parts: seq<string>, x: string): seq<string>
    requires parts != []
  {
    parts[..|parts| - 1] + [parts[|parts| - 1] + x]
  }

  /** The parts between slashes; always at least one. */
  function Split(s: string): (parts: seq<string>)
    ensures 1 <= |parts|
  {
    if s == "" then [""]
    else
      var before, last := Split(s[..|s| - 1]), s[|s| - 1];
      if last == '/' then before + [""]
      else Extend(before, [last])
  }

  /** What is before the first '=', and what is after it. */
  function Cut(s: string): Pair {
    if s == "" then Pair("", "")
    else if s[0] == '=' then Pair("", s[1..])
    else var rest := Cut(s[1..]); Pair([s[0]] + rest.key, rest.value)
  }

  lemma {:induction false} CutSegment(key: string, value: string)
    requires '=' !in key
    ensures Cut(key) == Pair(key, "") && Cut(key + "=" + value) == Pair(key, value)
  {
    if key != "" {
      CutSegment(key[1..], value);
      assert (key + "=" + value)[1..] == key[1..] + "=" + value;
    } else {
      assert key + "=" + value == "=" + value && ("=" + value)[1..] == value;
    }
  }

  lemma ExtendTwice(parts: seq<string>, x: string, y: string)
    requires parts != []
    ensures Extend(parts, "") == parts && Extend(Extend(parts, x), y) == Extend(parts, x + y)
  {
    var last := parts[|parts| - 1];
    assert last + "" == last && last + x + y == last + (x + y);
  }

  lemma SplitStep(s: string, c: char)
    ensures Split(s + [c]) == if c == '/' then Split(s) + [""] else Extend(Split(s), [c])
  {}

  lemma {:induction false} SplitExtends(s: string, part: string)
    requires '/' !in part
    ensures Split(s + part) == Extend(Split(s), part)
  {
    hide Split, Extend;
    ExtendTwice(Split(s), "", "");
    if part == "" {
      assert s + part == s;
    } else {
      var front, last := part[..|part| - 1], part[|part| - 1];
      SplitExtends(s, front);
      SplitStep(s + front, last);
      ExtendTwice(Split(s), front, [last]);
      assert s + part == (s + front) + [last] && front + [last] == part;
    }
  }

  /** Splitting undoes joining, for parts without slashes. */
  lemma {:induction false} SplitJoin(parts: seq<string>)
    requires parts != [] && forall i :: 0 <= i < |parts| ==> '/' !in parts[i]
    ensures Split(Join(parts, '/')) == parts
  {
    var front, last := parts[..|parts| - 1], parts[|parts| - 1];
    if |parts| == 1 {
      SplitOne(last);
    } else {
      SplitJoin(front);
      SplitNext(Join(front, '/'), last);
    }
  }

  lemma SplitOne(part: string)
    requires '/' !in part
    ensures Split(part) == [part]
  {
    SplitExtends("", part);
    assert "" + part == part;
  }

  lemma SplitNext(s: string, part: string)
    requires '/' !in part
    ensures Split(s + "/" + part) == Split(s) + [part]
  {
    hide Split;
    SplitStep(s, '/');
    SplitExtends(s + "/", part);
    assert "" + part == part;
  }

  /** Keys without '/' and '=', and values without '/', everywhere in the tree. */
  ghost predicate Clean<L>(n: Node<L>) {
    && '/' !in n.key && '=' !in n.key && '/' !in n.value
    && forall i :: 0 <= i < |n.entries| ==> Clean(n.entries[i])
  }

  ghost predicate CleanTree<L>(root: seq<Node<L>>) {
    forall i :: 0 <= i < |root| ==> Clean(root[i])
  }

  lemma {:induction false} CleanLevels<L>(root: seq<Node<L>>, path: seq<nat>)
    requires CleanTree(root)
    ensures CleanTree(LevelAt(root, path))
  {
    if path != [] {
      CleanLevels(root, path[..|path| - 1]);
    }
  }

  // What a name finds.

  ghost predicate Finds<L>(root: seq<Node<L>>, segments: seq<string>, path: seq<nat>) {
    && |path| == |segments|
    && forall k :: 0 <= k < |path| ==>
                     FirstAt(LevelAt(root, path[..k]), Cut(segments[k]).key, Cut(segments[k]).value, path[k])
  }

  lemma FirstIsUnique<L>(level: seq<Node<L>>, key: string, value: string, i: nat, j: nat)
    requires FirstAt(level, key, value, i) && FirstAt(level, key, value, j)
    ensures i == j
  {}

  /** A name leads to at most one entry. */
  lemma {:induction false} FindIsUnique<L>(root: seq<Node<L>>, segments: seq<string>, path: seq<nat>, other: seq<nat>,
                                           n: nat)
    requires Finds(root, segments, path) && Finds(root, segments, other) && n <= |segments|
    ensures path[..n] == other[..n]
  {
    hide LevelAt, Cut, FirstAt;
    if n > 0 {
      FindIsUnique(root, segments, path, other, n - 1);
      FirstIsUnique(LevelAt(root, path[..n - 1]), Cut(segments[n - 1]).key, Cut(segments[n - 1]).value, path[n - 1],
                    other[n - 1]);
    }
  }

  /** What a pair picked is what its entry's own segment finds. */
  lemma PickIsFound<L>(level: seq<Node<L>>, e: Pair, i: nat)
    requires Picks(level, e, i) && CleanTree(level)
    ensures i < |level| && FirstAt(level, Cut(Segment(level[i])).key, Cut(Segment(level[i])).value, i)
    ensures '/' !in Segment(level[i])
  {
    hide Cut;
    CutSegment(level[i].key, level[i].value);
    assert Clean(level[i]);
  }

  lemma MatchIsFound<L>(root: seq<Node<L>>, pairs: seq<Pair>, path: seq<nat>)
    requires Matches(root, pairs, path) && CleanTree(root) && pairs != [] && InTree(root, path)
    ensures Finds(root, Split(Join(Segments(root, path), '/')), path)
  {
    hide LevelAt, Cut, Picks, Split, Join, Segment, CleanTree;
    var segments := Segments(root, path);
    forall k | 0 <= k < |path|
      ensures '/' !in segments[k]
      ensures FirstAt(LevelAt(root, path[..k]), Cut(segments[k]).key, Cut(segments[k]).value, path[k])
    {
      CleanLevels(root, path[..k]);
      PickIsFound(LevelAt(root, path[..k]), pairs[k], path[k]);
    }
    SplitJoin(segments);
  }

  /** A descriptor resolves to a path of the tree that has a limit at its end. */
  ghost predicate Resolves<L>(root: seq<Node<L>>, pairs: seq<Pair>, path: seq<nat>, limitID: string, limit: L) {
    && pairs != [] && Matches(root, pairs, path) && InTree(root, path)
    && NodeAt(root, path, |path| - 1).limit == Some(limit)
    && limitID == Join(Segments(root, path), '/')
  }

  /** A name leads to a path of the tree that has a limit at its end. */
  ghost predicate Leads<L>(root: seq<Node<L>>, limitID: string, path: seq<nat>, limit: L) {
    && limitID != "" && Finds(root, Split(limitID), path) && InTree(root, path)
    && NodeAt(root, path, |path| - 1).limit == Some(limit)
  }

  /** Round trip: the name of whatever a descriptor resolved to leads back to the same entry and the same limit, and
      to no other, exactly when the name is not empty. */
  lemma RoundTrip<L(!new)>(root: seq<Node<L>>, pairs: seq<Pair>, path: seq<nat>, limitID: string, limit: L)
    requires Resolves(root, pairs, path, limitID, limit) && CleanTree(root)
    ensures Leads(root, limitID, path, limit) <==> limitID != ""
    ensures forall other, found :: Leads(root, limitID, other, found) ==> other == path && found == limit
  {
    hide LevelAt, Cut, Split, Join, FirstAt, CleanTree, Picks;
    MatchIsFound(root, pairs, path);
    forall other, found | Leads(root, limitID, other, found) ensures other == path && found == limit {
      FindIsUnique(root, Split(limitID), path, other, |path|);
      assert path[..|path|] == path && other[..|other|] == other;
    }
  }

  /** The name is empty only for a descriptor of one pair that picked an entry with neither key nor value. */
  lemma EmptyName<L>(root: seq<Node<L>>, pairs: seq<Pair>, path: seq<nat>, limitID: string, limit: L)
    requires Resolves(root, pairs, path, limitID, limit)
    ensures limitID == "" <==> |pairs| == 1 && NodeAt(root, path, 0).key == "" && NodeAt(root, path, 0).value == ""
  {}

  /** Such a tree: what it resolves to cannot be found. */
  lemma EmptyNameIsLost()
    ensures var root := [Node("", "", Some(5), [])];
            && Resolves(root, [Pair("", "")], [0], "", 5)
            && forall path, limit :: !Leads(root, "", path, limit)
  {}

  // The two walks.

  /** The first entry with a key and a value, or -1. */
  method FirstWith<L>(level: seq<Node<L>>, key: string, value: string) returns (i: int)
    ensures 0 <= i ==> FirstAt(level, key, value, i)
    ensures i < 0 <==> !Has(level, key, value)
  {
    for j := 0 to |level|
      invariant forall k :: 0 <= k < j ==> !(level[k].key == key && level[k].value == value)
    {
      if level[j].key == key && level[j].value == value {
        return j;
      }
    }
    return -1;
  }

  lemma {:induction false} MatchIsUnique<L>(root: seq<Node<L>>, pairs: seq<Pair>, path: seq<nat>, other: seq<nat>,
                                            n: nat)
    requires n <= |pairs| && Matches(root, pairs, path) && Matches(root, pairs[..n], other)
    ensures path[..n] == other
  {
    hide LevelAt, FirstAt, Has;
    if n > 0 {
      var front := other[..n - 1];
      assert forall k :: 0 <= k < n - 1 ==> front[..k] == other[..k] && pairs[..n][k] == pairs[..n - 1][k];
      MatchIsUnique(root, pairs, path, front, n - 1);
      var level, e := LevelAt(root, front), pairs[n - 1];
      assert other[..n - 1] == front && pairs[..n][n - 1] == e;
      if Has(level, e.key, e.value) {
        FirstIsUnique(level, e.key, e.value, path[n - 1], other[n - 1]);
      } else {
        FirstIsUnique(level, e.key, "", path[n - 1], other[n - 1]);
      }
    }
  }

  /** The values that stand for the wildcards a descriptor picked. */
  function WildValues<L>(root: seq<Node<L>>, pairs: seq<Pair>, path: seq<nat>): seq<string>
    requires |pairs| == |path| && InTree(root, path)
  {
    if path == [] then []
    else
      var n := |path| - 1;
      assert forall k :: 0 <= k < n ==> path[..n][..k] == path[..k] && path[..n][k] == path[k];
      WildValues(root, pairs[..n], path[..n])
      + if NodeAt(root, path, n).value != pairs[n].value then [pairs[n].value] else []
  }

  lemma Longer(path: seq<nat>, i: nat, k: nat)
    requires k <= |path|
    ensures (path + [i])[..k] == path[..k] && (k < |path| ==> (path + [i])[k] == path[k])
    ensures path[..|path|] == path
  {}

  lemma PathStep<L>(root: seq<Node<L>>, path: seq<nat>, i: nat)
    requires InTree(root, path) && i < |LevelAt(root, path)|
    ensures InTree(root, path + [i])
    ensures NodeAt(root, path + [i], |path|) == LevelAt(root, path)[i]
    ensures LevelAt(root, path + [i]) == LevelAt(root, path)[i].entries
  {
    Longer(path, i, |path|);
    forall k | 0 <= k < |path| ensures (path + [i])[k] < |LevelAt(root, (path + [i])[..k])| {
      Longer(path, i, k);
    }
  }

  lemma SegmentsStep<L>(root: seq<Node<L>>, path: seq<nat>, i: nat)
    requires InTree(root, path) && InTree(root, path + [i]) && i < |LevelAt(root, path)|
    ensures Segments(root, path + [i]) == Segments(root, path) + [Segment(LevelAt(root, path)[i])]
  {
    hide Segment, LevelAt, InTree;
    Longer(path, i, |path|);
    forall k | 0 <= k < |path| ensures Segments(root, path + [i])[k] == Segments(root, path)[k] {
      Longer(path, i, k);
    }
  }

  /** The name of a counter: one for all values, or a hash of the values joined by NULs. */
  function Subject(values: seq<string>, hash: string -> string): string {
    if values == [] then "_all" else "v" + hash(Join(values, '\0'))
  }

  /** One more pair of a descriptor is matched. */
  lemma MatchStep<L>(root: seq<Node<L>>, pairs: seq<Pair>, path: seq<nat>, n: nat, i: nat)
    requires n < |pairs| && Matches(root, pairs[..n], path) && InTree(root, path)
    requires Picks(LevelAt(root, path), pairs[n], i)
    ensures Matches(root, pairs[..n + 1], path + [i]) && i < |LevelAt(root, path)|
  {
    hide Picks, LevelAt, InTree;
    var longer := path + [i];
    assert longer[..n] == path;
    PickInLevel(LevelAt(root, path), pairs[n], i);
    forall k | 0 <= k < n ensures Picks(LevelAt(root, longer[..k]), pairs[..n + 1][k], longer[k]) {
      assert longer[..k] == path[..k] && longer[k] == path[k] && pairs[..n + 1][k] == pairs[..n][k];
    }
  }

  lemma WildStep<L>(root: seq<Node<L>>, pairs: seq<Pair>, path: seq<nat>, n: nat, i: nat)
    requires |path| == n < |pairs| && InTree(root, path) && InTree(root, path + [i]) && i < |LevelAt(root, path)|
    ensures WildValues(root, pairs[..n + 1], path + [i]) ==
            WildValues(root, pairs[..n], path)
            + if LevelAt(root, path)[i].value != pairs[n].value then [pairs[n].value] else []
  {
    hide LevelAt, InTree;
    assert (path + [i])[..n] == path && pairs[..n + 1][..n] == pairs[..n] && pairs[..n + 1][n] == pairs[n];
  }

  lemma PickInLevel<L>(level: seq<Node<L>>, e: Pair, i: nat)
    requires Picks(level, e, i)
    ensures i < |level|
  {}

  /** Matches a descriptor against a domain's entries. */
  method Resolve<L(!new)>(root: seq<Node<L>>, pairs: seq<Pair>, hash: string -> string)
    returns (m: Option<Match<L>>, ghost path: seq<nat>)
    ensures m.Some? ==> Resolves(root, pairs, path, m.value.limitID, m.value.limit)
    ensures m.Some? ==> m.value.subject == Subject(WildValues(root, pairs, path), hash)
    ensures m.None? ==> forall other, id, limit :: !Resolves(root, pairs, other, id, limit)
  {
    hide LevelAt, Segment, WildValues, FirstAt, Has;
    path := [];
    if |pairs| == 0 {
      return None, path;
    }
    var level := root;
    var limit: Option<L> := None;
    var names: seq<string>, values: seq<string> := [], [];
    StartOfWalk(root, pairs);
    for n := 0 to |pairs|
      invariant Matches(root, pairs[..n], path) && InTree(root, path)
      invariant level == LevelAt(root, path) && names == Segments(root, path)
      invariant values == WildValues(root, pairs[..n], path)
      invariant 0 < n ==> limit == NodeAt(root, path, n - 1).limit
    {
      var e := pairs[n];
      var i := FirstWith(level, e.key, e.value);
      var exact := 0 <= i;
      if !exact {
        i := FirstWith(level, e.key, "");
        if i < 0 {
          NoMatch(root, pairs, path, n);
          return None, path;
        }
        values := values + [e.value];
      }
      ExactOrWild(level, e, i, exact);
      MatchStep(root, pairs, path, n, i);
      PathStep(root, path, i);
      SegmentsStep(root, path, i);
      WildStep(root, pairs, path, n, i);
      names := names + [Segment(level[i])];
      limit := level[i].limit;
      level := level[i].entries;
      path := path + [i];
    }
    assert pairs[..|pairs|] == pairs;
    forall other, id, found | Resolves(root, pairs, other, id, found) ensures limit == Some(found) {
      MatchIsUnique(root, pairs, other, path, |pairs|);
      assert other[..|pairs|] == other;
    }
    if limit.None? {
      return None, path;
    }
    return Some(Match(Join(names, '/'), Subject(values, hash), limit.value)), path;
  }

  lemma StartOfWalk<L>(root: seq<Node<L>>, pairs: seq<Pair>)
    ensures Matches(root, pairs[..0], []) && InTree(root, [])
    ensures LevelAt(root, []) == root && Segments(root, []) == [] && WildValues(root, pairs[..0], []) == []
  {}

  lemma ExactOrWild<L>(level: seq<Node<L>>, e: Pair, i: nat, exact: bool)
    requires exact <==> Has(level, e.key, e.value)
    requires if exact then FirstAt(level, e.key, e.value, i) else FirstAt(level, e.key, "", i)
    ensures Picks(level, e, i) && i < |level| && (exact <==> level[i].value == e.value)
  {}

  lemma MatchGoesOn<L>(root: seq<Node<L>>, pairs: seq<Pair>, path: seq<nat>, n: nat, other: seq<nat>)
    requires n < |pairs| && Matches(root, pairs[..n], path) && Matches(root, pairs, other)
    ensures Has(LevelAt(root, path), pairs[n].key, pairs[n].value) || Has(LevelAt(root, path), pairs[n].key, "")
  {
    hide LevelAt;
    MatchIsUnique(root, pairs, other, path, n);
    assert Picks(LevelAt(root, other[..n]), pairs[n], other[n]);
  }

  lemma NoMatch<L(!new)>(root: seq<Node<L>>, pairs: seq<Pair>, path: seq<nat>, n: nat)
    requires n < |pairs| && Matches(root, pairs[..n], path)
    requires !Has(LevelAt(root, path), pairs[n].key, pairs[n].value) && !Has(LevelAt(root, path), pairs[n].key, "")
    ensures forall other, id, limit :: !Resolves(root, pairs, other, id, limit)
  {
    hide LevelAt, Has, Matches;
    forall other | Matches(root, pairs, other) { MatchGoesOn(root, pairs, path, n, other); }
  }

  /** The limit configured at a name. */
  method Find<L(!new)>(root: seq<Node<L>>, limitID: string) returns (found: Option<L>, ghost path: seq<nat>)
    ensures found.Some? ==> Leads(root, limitID, path, found.value)
    ensures found.None? ==> forall other, limit :: !Leads(root, limitID, other, limit)
  {
    hide LevelAt, FirstAt, Has, Cut, Split;
    path := [];
    if limitID == "" {
      return None, path;
    }
    var segments := Split(limitID);
    var level := root;
    var limit: Option<L> := None;
    StartOfWalk(root, []);
    for n := 0 to |segments|
      invariant Finds(root, segments[..n], path) && InTree(root, path) && level == LevelAt(root, path)
      invariant 0 < n ==> limit == NodeAt(root, path, n - 1).limit
    {
      var e := Cut(segments[n]);
      var i := FirstWith(level, e.key, e.value);
      if i < 0 {
        NotFound(root, limitID, path, n);
        return None, path;
      }
      FindStep(root, segments, path, n, i);
      PathStep(root, path, i);
      limit := level[i].limit;
      level := level[i].entries;
      path := path + [i];
    }
    assert segments[..|segments|] == segments;
    forall other, at | Leads(root, limitID, other, at) ensures limit == Some(at) {
      FindIsUnique(root, segments, path, other, |segments|);
      assert other[..|segments|] == other && path[..|segments|] == path;
    }
    return limit, path;
  }

  lemma FindStep<L>(root: seq<Node<L>>, segments: seq<string>, path: seq<nat>, n: nat, i: nat)
    requires n < |segments| && Finds(root, segments[..n], path)
    requires FirstAt(LevelAt(root, path), Cut(segments[n]).key, Cut(segments[n]).value, i)
    ensures Finds(root, segments[..n + 1], path + [i]) && i < |LevelAt(root, path)|
  {
    hide Cut, LevelAt;
    Longer(path, i, n);
    forall k | 0 <= k < n
      ensures FirstAt(LevelAt(root, (path + [i])[..k]), Cut(segments[..n + 1][k]).key, Cut(segments[..n + 1][k]).value,
                      (path + [i])[k])
    {
      Longer(path, i, k);
      assert segments[..n + 1][k] == segments[..n][k];
    }
  }

  lemma FindGoesOn<L>(root: seq<Node<L>>, segments: seq<string>, path: seq<nat>, n: nat, other: seq<nat>)
    requires n < |segments| && Finds(root, segments[..n], path) && Finds(root, segments, other)
    ensures Has(LevelAt(root, path), Cut(segments[n]).key, Cut(segments[n]).value)
  {
    hide LevelAt, Cut;
    var front := other[..n];
    assert forall k :: 0 <= k < n ==>
                 front[..k] == other[..k] && front[k] == other[k] && segments[..n][k] == segments[k];
    FindIsUnique(root, segments[..n], path, front, n);
    assert path[..n] == path && front[..n] == front;
    assert FirstAt(LevelAt(root, other[..n]), Cut(segments[n]).key, Cut(segments[n]).value, other[n]);
  }

  lemma NotFound<L(!new)>(root: seq<Node<L>>, limitID: string, path: seq<nat>, n: nat)
    requires n < |Split(limitID)| && Finds(root, Split(limitID)[..n], path)
    requires !Has(LevelAt(root, path), Cut(Split(limitID)[n]).key, Cut(Split(limitID)[n]).value)
    ensures forall other, limit :: !Leads(root, limitID, other, limit)
  {
    hide LevelAt, Cut, Split, Has, Finds;
    forall other | Finds(root, Split(limitID), other) { FindGoesOn(root, Split(limitID), path, n, other); }
  }

  // Counters: one per combination of wildcard values.

  function Nuls(v: string): nat {
    multiset(v)['\0']
  }

  /** Both values are empty or neither is, and they have as many NULs. */
  predicate Alike(v: string, w: string) {
    (v == "" <==> w == "") && Nuls(v) == Nuls(w)
  }

  /** Two descriptors give every wildcard values that are alike. */
  ghost predicate SameShape<L>(root: seq<Node<L>>, a: seq<Pair>, b: seq<Pair>, path: seq<nat>)
    requires |a| == |b| == |path| && InTree(root, path)
  {
    forall k :: 0 <= k < |path| && NodeAt(root, path, k).value == "" ==> Alike(a[k].value, b[k].value)
  }

  /** Two descriptors that match the same entry share a counter only if they are the same, exactly when their wildcard
      values are alike: unless one leaves a value empty that the other gives, or has NULs where the other has not. The
      hash is taken to tell the two joined values apart. */
  lemma SubjectsDistinguish<L>(root: seq<Node<L>>, a: seq<Pair>, b: seq<Pair>, path: seq<nat>, hash: string -> string)
    requires Matches(root, a, path) && Matches(root, b, path) && InTree(root, path)
    requires Subject(WildValues(root, a, path), hash) == Subject(WildValues(root, b, path), hash)
    requires var x, y := Join(WildValues(root, a, path), '\0'), Join(WildValues(root, b, path), '\0');
             hash(x) == hash(y) ==> x == y
    ensures a == b <==> SameShape(root, a, b, path)
  {
    if SameShape(root, a, b, path) {
      var va, vb := WildValues(root, a, path), WildValues(root, b, path);
      WildAlike(root, a, b, path);
      SameSubject(va, vb, hash);
      hide LevelAt, WildValues, Picks, SameShape;
      JoinedSame(va, vb);
      SameDescriptor(root, a, b, path);
    }
  }

  lemma SameSubject(u: seq<string>, v: seq<string>, hash: string -> string)
    requires Subject(u, hash) == Subject(v, hash)
    ensures u == [] <==> v == []
    ensures u != [] ==> hash(Join(u, '\0')) == hash(Join(v, '\0'))
  {
    hide Join;
    assert u != [] ==> Subject(u, hash)[0] == 'v' && Subject(u, hash)[1..] == hash(Join(u, '\0'));
    assert v != [] ==> Subject(v, hash)[0] == 'v' && Subject(v, hash)[1..] == hash(Join(v, '\0'));
    assert "_all"[0] == '_';
  }

  /** What follows the last separator is known when its own separators are counted. */
  lemma SameTail(s: string, x: string, t: string, y: string)
    requires s + "\0" + x == t + "\0" + y && Nuls(x) == Nuls(y)
    ensures s == t && x == y
  {
    var z := s + "\0" + x;
    if |x| < |y| {
      Tail(t + "\0", y, "\0" + x, z);
    } else if |y| < |x| {
      Tail(s + "\0", x, "\0" + y, z);
    } else {
      assert z[..|s|] == s && z[..|s|] == t && z[|s| + 1..] == x && z[|s| + 1..] == y;
    }
  }

  /** A longer tail has all the NULs of a shorter one. */
  lemma Tail(s: string, y: string, x: string, z: string)
    requires z == s + y && |x| <= |y| && z[|z| - |x|..] == x
    ensures Nuls(x) <= Nuls(y)
  {
    var d := |y| - |x|;
    assert y[d..] == x;
    assert y == y[..d] + x;
  }

  /** Joined values are known when the NULs of each are. */
  lemma {:induction false} JoinedSame(u: seq<string>, v: seq<string>)
    requires |u| == |v| && Join(u, '\0') == Join(v, '\0')
    requires forall k :: 0 <= k < |u| ==> Nuls(u[k]) == Nuls(v[k])
    ensures u == v
  {
    if |u| > 1 {
      var n := |u| - 1;
      SameTail(Join(u[..n], '\0'), u[n], Join(v[..n], '\0'), v[n]);
      JoinedSame(u[..n], v[..n]);
      assert u == u[..n] + [u[n]] && v == v[..n] + [v[n]];
    }
  }

  /** Descriptors of one shape name their counters by as many values, alike one by one. */
  lemma {:induction false} WildAlike<L>(root: seq<Node<L>>, a: seq<Pair>, b: seq<Pair>, path: seq<nat>)
    requires Matches(root, a, path) && Matches(root, b, path) && InTree(root, path) && SameShape(root, a, b, path)
    ensures var va, vb := WildValues(root, a, path), WildValues(root, b, path);
            |va| == |vb| && forall k :: 0 <= k < |va| ==> Nuls(va[k]) == Nuls(vb[k])
  {
    if path != [] {
      var n := |path| - 1;
      Shorter(root, a, path);
      Shorter(root, b, path);
      PickedValue(LevelAt(root, path[..n]), a[n], path[n]);
      PickedValue(LevelAt(root, path[..n]), b[n], path[n]);
      ShorterShape(root, a, b, path);
      assert NodeAt(root, path, n).value == "" ==> Alike(a[n].value, b[n].value);
      hide LevelAt, Picks, SameShape, Nuls;
      WildAlike(root, a[..n], b[..n], path[..n]);
    }
  }

  lemma {:induction false} SameDescriptor<L>(root: seq<Node<L>>, a: seq<Pair>, b: seq<Pair>, path: seq<nat>)
    requires Matches(root, a, path) && Matches(root, b, path) && InTree(root, path)
    requires WildValues(root, a, path) == WildValues(root, b, path) && SameShape(root, a, b, path)
    ensures a == b
  {
    hide LevelAt, WildValues, Picks, SameShape;
    if path != [] {
      var n := |path| - 1;
      Shorter(root, a, path);
      Shorter(root, b, path);
      PickedValue(LevelAt(root, path[..n]), a[n], path[n]);
      PickedValue(LevelAt(root, path[..n]), b[n], path[n]);
      SameLast(root, a, b, path);
      ShorterShape(root, a, b, path);
      SameDescriptor(root, a[..n], b[..n], path[..n]);
      assert a[n] == b[n];
      assert a == a[..n] + [a[n]] && b == b[..n] + [b[n]];
    }
  }

  lemma PickedValue<L>(level: seq<Node<L>>, e: Pair, i: nat)
    requires Picks(level, e, i)
    ensures i < |level| && level[i].key == e.key && (level[i].value == e.value || level[i].value == "")
  {}

  lemma Shorter<L>(root: seq<Node<L>>, pairs: seq<Pair>, path: seq<nat>)
    requires Matches(root, pairs, path) && InTree(root, path) && path != []
    ensures var n := |path| - 1; Matches(root, pairs[..n], path[..n]) && InTree(root, path[..n])
  {
    hide LevelAt, Picks;
    var n := |path| - 1;
    assert forall k :: 0 <= k < n ==> path[..n][..k] == path[..k];
  }

  lemma ShorterShape<L>(root: seq<Node<L>>, a: seq<Pair>, b: seq<Pair>, path: seq<nat>)
    requires |a| == |b| == |path| && InTree(root, path) && path != [] && SameShape(root, a, b, path)
    requires InTree(root, path[..|path| - 1])
    ensures var n := |path| - 1; SameShape(root, a[..n], b[..n], path[..n])
  {
    hide LevelAt;
    var n := |path| - 1;
    assert forall k :: 0 <= k < n ==> path[..n][..k] == path[..k];
    forall k | 0 <= k < n && NodeAt(root, path[..n], k).value == ""
      ensures Alike(a[..n][k].value, b[..n][k].value)
    {
      assert NodeAt(root, path, k) == NodeAt(root, path[..n], k);
    }
  }

  lemma SameLast<L>(root: seq<Node<L>>, a: seq<Pair>, b: seq<Pair>, path: seq<nat>)
    requires |a| == |b| == |path| && InTree(root, path) && path != [] && SameShape(root, a, b, path)
    requires InTree(root, path[..|path| - 1])
    requires WildValues(root, a, path) == WildValues(root, b, path)
    requires var n := |path| - 1;
             var v := NodeAt(root, path, n).value;
             && (v == a[n].value || v == "") && (v == b[n].value || v == "")
    ensures var n := |path| - 1;
            && a[n].value == b[n].value
            && WildValues(root, a[..n], path[..n]) == WildValues(root, b[..n], path[..n])
  {
    hide LevelAt;
    var n := |path| - 1;
    var wa, wb := WildValues(root, a, path), WildValues(root, b, path);
    var fa, fb := WildValues(root, a[..n], path[..n]), WildValues(root, b[..n], path[..n]);
    assert NodeAt(root, path, n).value == "" ==> Alike(a[n].value, b[n].value);
    if NodeAt(root, path, n).value != a[n].value {
      assert wa == fa + [a[n].value] && wb == fb + [b[n].value];
      assert wa[|wa| - 1] == a[n].value && wb[|wb| - 1] == b[n].value;
      assert wa[..|wa| - 1] == fa && wb[..|wb| - 1] == fb;
    } else {
      assert wa == fa && wb == fb;
    }
  }

  /** Two wildcards, one below the other: values that are given, in order. */
  lemma TwoWildcards(root: seq<Node<int>>, x: string, y: string)
    requires root == [Node("a", "", None, [Node("b", "", Some(5), [])])]
    ensures Matches(root, [Pair("a", x), Pair("b", y)], [0, 0]) && InTree(root, [0, 0])
    ensures WildValues(root, [Pair("a", x), Pair("b", y)], [0, 0]) ==
            (if x == "" then [] else [x]) + (if y == "" then [] else [y])
  {
    hide WildValues, Matches, InTree;
    var pairs := [Pair("a", x), Pair("b", y)];
    assert [] + [0] == [0] && [0] + [0] == [0, 0] && pairs[..2] == pairs;
    StartOfWalk(root, pairs);
    OnlyEntry(root, pairs[0]);
    MatchStep(root, pairs, [], 0, 0);
    PathStep(root, [], 0);
    WildStep(root, pairs, [], 0, 0);
    OnlyEntry(LevelAt(root, [0]), pairs[1]);
    MatchStep(root, pairs, [0], 1, 0);
    PathStep(root, [0], 0);
    WildStep(root, pairs, [0], 1, 0);
  }

  lemma OnlyEntry<L>(level: seq<Node<L>>, e: Pair)
    requires |level| == 1 && level[0].key == e.key && level[0].value == ""
    ensures Picks(level, e, 0)
  {}

  /** A value left empty in one place and given in another: x then nothing, and nothing then x. */
  lemma BlankValuesCollide(hash: string -> string)
    ensures var root := [Node("a", "", None, [Node("b", "", Some(5), [])])];
            var one, two := [Pair("a", "x"), Pair("b", "")], [Pair("a", ""), Pair("b", "x")];
            && Matches(root, one, [0, 0]) && Matches(root, two, [0, 0]) && InTree(root, [0, 0]) && one != two
            && Subject(WildValues(root, one, [0, 0]), hash) == Subject(WildValues(root, two, [0, 0]), hash)
  {
    hide WildValues, Matches, InTree;
    var root := [Node("a", "", None, [Node("b", "", Some(5), [])])];
    TwoWildcards(root, "x", "");
    TwoWildcards(root, "", "x");
    assert [Pair("a", "x"), Pair("b", "")][0] != [Pair("a", ""), Pair("b", "x")][0];
  }

  /** A NUL in a value: x, NUL, y then z, and x then y, NUL, z. */
  lemma NulValuesCollide(hash: string -> string)
    ensures var root := [Node("a", "", None, [Node("b", "", Some(5), [])])];
            var one, two := [Pair("a", "x\0y"), Pair("b", "z")], [Pair("a", "x"), Pair("b", "y\0z")];
            && Matches(root, one, [0, 0]) && Matches(root, two, [0, 0]) && InTree(root, [0, 0]) && one != two
            && Subject(WildValues(root, one, [0, 0]), hash) == Subject(WildValues(root, two, [0, 0]), hash)
  {
    hide WildValues, Matches, InTree;
    var root := [Node("a", "", None, [Node("b", "", Some(5), [])])];
    TwoWildcards(root, "x\0y", "z");
    TwoWildcards(root, "x", "y\0z");
    JoinTwo("x\0y", "z");
    JoinTwo("x", "y\0z");
    assert "x\0y" + "\0" + "z" == "x" + "\0" + "y\0z";
    assert |"x\0y"| == 3 && |"x"| == 1;
    assert [Pair("a", "x\0y"), Pair("b", "z")][0] != [Pair("a", "x"), Pair("b", "y\0z")][0];
  }

  lemma JoinTwo(x: string, y: string)
    ensures Join([x] + [y], '\0') == x + "\0" + y
  {
    assert ([x] + [y])[..1] == [x];
  }
}
