/** The in-process ledger: maps that never forget, changed in place under one lock. */
module MemLedger {
  import opened Numbers
  import opened Ledger
  import opened Grants

  /** The names a ledger stores values under. */
  datatype Key =
    | Counter(base: string, wid: int)
    | Tat(base: string)
    | Alloc(base: string, wid: int)
    | LendId(base: string, id: string)
    | CreditId(base: string, id: string)
    | ReturnId(base: string, id: string)
    | EdgeSet(base: string)

  datatype State = State(vals: map<Key, int>, edges: map<string, map<string, int>>, deduped: set<Key>)

  const EMPTY := State(map[], map[], {})

  function Get(vals: map<Key, int>, k: Key, default: int): int {
    if k in vals then vals[k] else default
  }

  function Find(vals: map<Key, int>, k: Key): Option<int> {
    if k in vals then Some(vals[k]) else None
  }

  function TatOf(vals: map<Key, int>, base: string, now: int): int {
    EffectiveTat(Find(vals, Tat(base)), now)
  }

  /** The edges seen less than activeMs ago. */
  function Active(seen: map<string, int>, now: int, activeMs: int): set<string> {
    set e | e in seen && seen[e] > now - activeMs
  }

  function SeenBy(s: State, base: string): map<string, int> {
    if base in s.edges then s.edges[base] else map[]
  }

  lemma RegisteredIsActive(seen: map<string, int>, edge: string, now: int, activeMs: int)
    requires 0 < activeMs
    ensures edge in Active(seen[edge := now], now, activeMs)
    ensures 1 <= |Active(seen[edge := now], now, activeMs)|
  {}

  function ReadsOf(s: State, g: GrantInput, now: int): (r: Reads)
    requires WellFormed(g)
    ensures 1 <= r.active && r.now == now
  {
    var wid := WindowOf(now, g.win);
    RegisteredIsActive(SeenBy(s, g.key), g.edge, now, g.activeMs);
    Reads(
      now,
      TatOf(s.vals, g.key, now),
      Get(s.vals, Alloc(g.key, wid), 0),
      Get(s.vals, Counter(g.key, wid), 0),
      Get(s.vals, Counter(g.key, wid - 1), 0),
      if g.parentKey != "" then Get(s.vals, Counter(g.parentKey, WindowOf(now, g.pwin)), 0) else 0,
      |Active(SeenBy(s, g.key)[g.edge := now], now, g.activeMs)|)
  }

  function Bump(vals: map<Key, int>, k: Key, n: int): map<Key, int> {
    vals[k := Get(vals, k, 0) + n]
  }

  /** The values after charging n tokens to a quota and to its parent. */
  function ChargedVals(vals: map<Key, int>, g: GrantInput, n: int, now: int): map<Key, int>
    requires WellFormed(g)
  {
    var charged := if g.algo == TokenBucket
      then vals[Tat(g.key) := ChargedTat(g.rate, TatOf(vals, g.key, now), n)]
      else Bump(vals, Counter(g.key, WindowOf(now, g.win)), n);
    if g.parentKey != "" then Bump(charged, Counter(g.parentKey, WindowOf(now, g.pwin)), n) else charged
  }

  function GrantVals(s: State, g: GrantInput, now: int): map<Key, int>
    requires WellFormed(g)
  {
    var r := ReadsOf(s, g, now);
    if Avail(g, r) <= 0 then s.vals else ChargedVals(s.vals, g, Granted(g, r), now)
  }

  /** Pruning may forget stale edges once more than 64 are known, and keeps forgetting until 64 are left. */
  ghost predicate Pruned(all: map<string, int>, kept: map<string, int>, now: int, activeMs: int) {
    && kept.Keys <= all.Keys
    && (forall e :: e in kept ==> kept[e] == all[e])
    && Active(all, now, activeMs) <= kept.Keys
    && (kept.Keys != all.Keys ==> 64 <= |kept| < |all|)
    && (64 < |kept| ==> kept.Keys == Active(all, now, activeMs))
  }

  lemma PrunedTo(all: map<string, int>, kept: map<string, int>, now: int, activeMs: int)
    requires kept.Keys <= all.Keys && (forall e :: e in kept ==> kept[e] == all[e])
    requires Active(all, now, activeMs) <= kept.Keys
    requires kept.Keys != all.Keys ==> 64 <= |kept| < |all|
    requires 64 < |kept| ==> kept.Keys <= Active(all, now, activeMs)
    ensures Pruned(all, kept, now, activeMs)
  {}

  ghost predicate EdgesAfter(s: State, g: GrantInput, now: int, edges: map<string, map<string, int>>)
    requires WellFormed(g)
  {
    if Registers(g, ReadsOf(s, g, now)) then
      && g.key in edges
      && edges == s.edges[g.key := edges[g.key]]
      && Pruned(SeenBy(s, g.key)[g.edge := now], edges[g.key], now, g.activeMs)
    else
      edges == s.edges
  }

  /** One reduced return: nothing when its dedupe id was seen, otherwise a credit to its own window. */
  function ReturnOne(s: State, r: ReturnInput, now: int): State
    requires WellFormedReturn(r)
  {
    var id := ReturnId(r.key, r.dedupe);
    if r.dedupe != "" && id in s.deduped then s
    else
      State(ReturnVals(s.vals, r, now), s.edges, if r.dedupe != "" then s.deduped + {id} else s.deduped)
  }

  function CreditCounter(vals: map<Key, int>, k: Key, n: int): map<Key, int> {
    vals[k := Credited(Get(vals, k, 0), n)]
  }

  function ReturnVals(vals: map<Key, int>, r: ReturnInput, now: int): map<Key, int>
    requires WellFormedReturn(r)
  {
    var own := if r.algo == TokenBucket
      then vals[Tat(r.key) := RefundedTat(r.rate, TatOf(vals, r.key, now), r.tokens, now)]
      else if WindowOf(now, r.win) == r.wid then CreditCounter(vals, Counter(r.key, r.wid), r.tokens)
      else vals;
    if r.parentKey != "" && WindowOf(now, r.pwin) == r.pwid
    then CreditCounter(own, Counter(r.parentKey, r.pwid), r.tokens)
    else own
  }

  /** A request to lend allocation, or to credit borrowed allocation, for one window. */
  datatype Transfer = Transfer(key: string, win: int, wid: int, amount: int, id: string)

  function LendAmount(s: State, x: Transfer, base: int, margin: int, now: int): int
    requires 0 < x.win
  {
    if WindowOf(now, x.win) != x.wid then 0
    else if LendId(x.key, x.id) in s.vals then s.vals[LendId(x.key, x.id)]
    else
      var used := Get(s.vals, Counter(x.key, x.wid), 0);
      Given(x.amount, base + Get(s.vals, Alloc(x.key, x.wid), 0), used, Kept(used, now, x.win, margin))
  }

  function LendNext(s: State, x: Transfer, base: int, margin: int, now: int): State
    requires 0 < x.win
  {
    if WindowOf(now, x.win) != x.wid || LendId(x.key, x.id) in s.vals then s
    else
      var give := LendAmount(s, x, base, margin, now);
      s.(vals := Bump(s.vals, Alloc(x.key, x.wid), -give)[LendId(x.key, x.id) := give])
  }

  predicate Credits(s: State, x: Transfer, now: int)
    requires 0 < x.win
  {
    WindowOf(now, x.win) == x.wid && CreditId(x.key, x.id) !in s.deduped
  }

  function CreditNext(s: State, x: Transfer, now: int): State
    requires 0 < x.win
  {
    if !Credits(s, x, now) then s
    else s.(vals := Bump(s.vals, Alloc(x.key, x.wid), x.amount), deduped := s.deduped + {CreditId(x.key, x.id)})
  }

  function Reduced(items: seq<Return>, dedupe: string): (out: seq<Result<ReturnInput>>)
    ensures |out| == |items|
    ensures forall i :: 0 <= i < |items| ==> out[i] == PrepareReturn(items[i], dedupe)
  {
    seq(|items|, i requires 0 <= i < |items| => PrepareReturn(items[i], dedupe))
  }

  ghost predicate AllWellFormed(items: seq<Result<ReturnInput>>) {
    forall i :: 0 <= i < |items| && items[i].Ok? ==> WellFormedReturn(items[i].value)
  }

  lemma ReducedWellFormed(items: seq<Return>, dedupe: string)
    ensures AllWellFormed(Reduced(items, dedupe))
  {
    hide WellFormedReturn, PrepareReturn;
    var out := Reduced(items, dedupe);
    forall i | 0 <= i < |out| && out[i].Ok? ensures WellFormedReturn(out[i].value) {
      assert items[i] in items;
    }
  }

  /** The state after a list of returns; the list stops at the first item whose spec is invalid. */
  function ReturnAll(s: State, items: seq<Result<ReturnInput>>, now: int): (State, bool)
    requires AllWellFormed(items)
  {
    if items == [] then (s, true)
    else
      var last := items[|items| - 1];
      var (before, ok) := ReturnAll(s, items[..|items| - 1], now);
      if !ok || last.Err? then (before, false) else (ReturnOne(before, last.value, now), true)
  }

  class Mem {
    var vals: map<Key, int>
    var edges: map<string, map<string, int>>
    var deduped: set<Key>

    function St(): State
      reads this
    {
      State(vals, edges, deduped)
    }

    constructor ()
      ensures St() == EMPTY
    {
      vals, edges, deduped := map[], map[], {};
    }

    /** Registers an edge and counts the active ones. */
    method Register(base: string, edge: string, now: int, activeMs: int) returns (n: int)
      requires 0 < activeMs
      modifies this`edges
      ensures base in edges && edges == old(edges)[base := edges[base]]
      ensures Pruned(SeenBy(old(St()), base)[edge := now], edges[base], now, activeMs)
      ensures n == |Active(SeenBy(old(St()), base)[edge := now], now, activeMs)|
    {
      hide Pruned, Active;
      var seen;
      seen, n := CountActive(SeenBy(St(), base)[edge := now], now, activeMs);
      edges := edges[base := seen];
      assert edges[base] == seen;
    }

    /** Counts the active edges, forgetting stale ones while too many are known. */
    static method CountActive(all: map<string, int>, now: int, activeMs: int) returns (seen: map<string, int>, n: int)
      ensures Pruned(all, seen, now, activeMs)
      ensures n == |Active(all, now, activeMs)|
    {
      ghost var live := Active(all, now, activeMs);
      assert forall e :: e in all ==> (e in live <==> all[e] > now - activeMs);
      hide Pruned;
      seen, n := all, 0;
      var rest := all.Keys;
      while rest != {}
        invariant rest <= seen.Keys <= all.Keys
        invariant forall e :: e in seen ==> seen[e] == all[e]
        invariant n == |live - rest|
        invariant live <= seen.Keys
        invariant seen.Keys != all.Keys ==> 64 <= |seen| < |all|
        invariant 64 < |seen| ==> forall e :: e in seen && e !in rest ==> e in live
        decreases |rest|
      {
        var e :| e in rest;
        CountStep(live, rest, e);
        rest := rest - {e};
        if all[e] > now - activeMs {
          n := n + 1;
        } else if |seen| > 64 {
          seen := Forget(seen, all, e);
        }
      }
      assert live - rest == live;
      PrunedTo(all, seen, now, activeMs);
    }

    method Grant(key: string, parentKey: string, spec: Spec, args: GrantArgs, now: int) returns (res: Result<Reply>)
      modifies this`vals, this`edges
      ensures res.Err? <==> Prepare(key, parentKey, spec, args).Err?
      ensures res.Err? ==> St() == old(St())
      ensures res.Ok? ==>
                var g := Prepare(key, parentKey, spec, args).value;
                && res.value == Outcome(g, ReadsOf(old(St()), g, now))
                && vals == GrantVals(old(St()), g, now)
                && EdgesAfter(old(St()), g, now, edges)
    {
      var prepared := Prepare(key, parentKey, spec, args);
      if prepared.Err? {
        return Err(prepared.error);
      }
      var reply := GrantPrepared(prepared.value, now);
      return Ok(reply);
    }

    /** What the quota itself has left, and the numbers a denial needs. */
    method KeyLeft(g: GrantInput, now: int)
      returns (avail: int, wid: int, reset: int, expires: int, tat: int, prev: int, cur: int, limit: int, f: real)
      requires WellFormed(g)
      ensures avail == KeyAvail(g, ReadsOf(St(), g, now))
      ensures g.algo == TokenBucket ==>
                && (wid, reset, expires) == (0, 0, g.ttl)
                && tat == TatOf(vals, g.key, now)
                && limit == g.limit
      ensures g.algo != TokenBucket ==>
                && (wid, reset, expires) == (WindowOf(now, g.win), Remainder(now, g.win), Remainder(now, g.win))
                && cur == ReadsOf(St(), g, now).cur
                && limit == Capacity(g, ReadsOf(St(), g, now).alloc)
      ensures g.algo == SlidingWindow ==> prev == ReadsOf(St(), g, now).prev && f == Elapsed(now, g.win)
    {
      limit := g.limit;
      avail, wid, reset, expires, tat, prev, cur, f := 0, 0, 0, 0, 0, 0, 0, 0.0;
      if g.algo == TokenBucket {
        var t := Interval(g.rate);
        var tau := Worth(limit, t);
        tat := Get(vals, Tat(g.key), now);
        if tat < now {
          tat := now;
        }
        avail := ((now as real + tau - tat as real) / t).Floor;
        expires := g.ttl;
      } else {
        wid := WindowOf(now, g.win);
        reset := (wid + 1) * g.win - now;
        expires := reset;
        if g.allocBase >= 0 {
          limit := g.allocBase + Get(vals, Alloc(g.key, wid), 0);
        }
        cur := Get(vals, Counter(g.key, wid), 0);
        var used := cur;
        if g.algo == SlidingWindow {
          prev := Get(vals, Counter(g.key, wid - 1), 0);
          f := (now - wid * g.win) as real / g.win as real;
          used := used + Ceil(prev as real * (1.0 - f));
        }
        avail := limit - used;
      }
    }

    /** Charges n tokens to the quota and to its parent; returns the time until the quota is whole again. */
    method Charge(g: GrantInput, n: int, tat: int, now: int) returns (reset: int)
      requires WellFormed(g)
      requires g.algo == TokenBucket ==> tat == TatOf(vals, g.key, now)
      modifies this`vals
      ensures vals == ChargedVals(old(vals), g, n, now)
      ensures reset == if g.algo == TokenBucket then ChargedTat(g.rate, TatOf(old(vals), g.key, now), n) - now
                       else Remainder(now, g.win)
    {
      if g.algo == TokenBucket {
        var t := Interval(g.rate);
        var next := Ceil(tat as real + Worth(n, t));
        assert next == ChargedTat(g.rate, TatOf(vals, g.key, now), n);
        vals := vals[Tat(g.key) := next];
        reset := next - now;
        assert vals == old(vals)[Tat(g.key) := ChargedTat(g.rate, TatOf(old(vals), g.key, now), n)];
      } else {
        vals := Bump(vals, Counter(g.key, WindowOf(now, g.win)), n);
        reset := Remainder(now, g.win);
      }
      if g.parentKey != "" {
        vals := Bump(vals, Counter(g.parentKey, WindowOf(now, g.pwin)), n);
      }
    }

    /** The body of a grant, under the lock. */
    method GrantPrepared(g: GrantInput, now: int) returns (reply: Reply)
      requires WellFormed(g)
      modifies this`vals, this`edges
      ensures reply == Outcome(g, ReadsOf(old(St()), g, now))
      ensures vals == GrantVals(old(St()), g, now)
      ensures EdgesAfter(old(St()), g, now, edges)
    {
      hide KeyAvail, Active, Elapsed, ChargedVals, Decayed, Granted, Retry, ChargedTat, Pruned;
      ghost var r := ReadsOf(St(), g, now);
      var avail, wid, reset, expires, tat, prev, cur, limit, f := KeyLeft(g, now);
      var pwid, preset := 0, 0;
      var parentBinds := false;
      if g.parentKey != "" {
        pwid := WindowOf(now, g.pwin);
        preset := (pwid + 1) * g.pwin - now;
        var pavail := g.plimit - Get(vals, Counter(g.parentKey, pwid), 0);
        if pavail < avail {
          avail, parentBinds := pavail, true;
        }
        expires := Min(expires, preset);
      }
      var n := 1;
      if g.edge != "" && avail < 64 * g.target {
        n := Register(g.key, g.edge, now, g.activeMs);
      }
      if avail <= 0 {
        var retry := RetryAfter(g, r, now, parentBinds, preset, reset, tat, prev, cur, limit, f);
        if g.algo == TokenBucket {
          reset := tat - now;
        }
        return Reply(0, 0, wid, expires, reset, retry, n, pwid);
      }
      var grant := Split(g, r, avail, n);
      reset := Charge(g, grant, tat, now);
      return Reply(grant, avail - grant, wid, expires, reset, 0, n, pwid);
    }

    method Credit1(k: Key, tokens: int)
      modifies this`vals
      ensures vals == CreditCounter(old(vals), k, tokens)
    {
      var used := Get(vals, k, 0);
      vals := vals[k := used - Min(tokens, used)];
    }

    method ReturnPrepared(r: ReturnInput, now: int)
      requires WellFormedReturn(r)
      modifies this`vals, this`deduped
      ensures St() == ReturnOne(old(St()), r, now)
    {
      hide Worth, Interval;
      var id := ReturnId(r.key, r.dedupe);
      if r.dedupe != "" {
        if id in deduped {
          return;
        }
        deduped := deduped + {id};
      }
      if r.algo == TokenBucket {
        var t := Interval(r.rate);
        var tat := Get(vals, Tat(r.key), now);
        if tat < now {
          tat := now;
        }
        tat := Ceil(tat as real - Worth(r.tokens, t));
        if tat < now {
          tat := now;
        }
        vals := vals[Tat(r.key) := tat];
      } else if WindowOf(now, r.win) == r.wid {
        Credit1(Counter(r.key, r.wid), r.tokens);
      }
      if r.parentKey != "" && WindowOf(now, r.pwin) == r.pwid {
        Credit1(Counter(r.parentKey, r.pwid), r.tokens);
      }
    }

    method Return(dedupe: string, items: seq<Return>, now: int) returns (ok: bool)
      modifies this`vals, this`deduped
      ensures AllWellFormed(Reduced(items, dedupe))
      ensures (St(), ok) == ReturnAll(old(St()), Reduced(items, dedupe), now)
    {
      hide PrepareReturn, WellFormedReturn, ReturnOne;
      ReducedWellFormed(items, dedupe);
      ghost var all := Reduced(items, dedupe);
      for i := 0 to |items|
        invariant (St(), true) == ReturnAll(old(St()), all[..i], now)
      {
        assert all[..i + 1][..i] == all[..i];
        var prepared := PrepareReturn(items[i], dedupe);
        assert prepared == all[i];
        if prepared.Err? {
          ReturnStops(old(St()), all, now, i + 1);
          return false;
        }
        ReturnPrepared(prepared.value, now);
      }
      assert all[..|items|] == all;
      return true;
    }

    method Lend(key: string, spec: Spec, base: int, wid: int, want: int, margin: int, id: string, now: int)
      returns (res: Result<int>)
      modifies this`vals
      ensures res.Err? <==> spec.name.Unknown? || spec.Or() != FixedWindow
      ensures res.Err? ==> St() == old(St())
      ensures res.Ok? ==>
                var x := Transfer(key, spec.WindowMs(), wid, want, id);
                && res.value == LendAmount(old(St()), x, base, margin, now)
                && St() == LendNext(old(St()), x, base, margin, now)
    {
      if spec.name.Unknown? || spec.Or() != FixedWindow {
        return Err(BadSpec);
      }
      var win := spec.WindowMs();
      if WindowOf(now, win) != wid {
        return Ok(0);
      }
      var idk := LendId(key, id);
      if idk in vals {
        return Ok(vals[idk]);
      }
      var ak := Alloc(key, wid);
      var alloc := base + Get(vals, ak, 0);
      var used := Get(vals, Counter(key, wid), 0);
      var elapsed := now - wid * win;
      var keep := Max(margin, Ceil((used * (win - elapsed)) as real / Max(elapsed, 1) as real));
      var give := Max(Min(want, alloc - used - keep), 0);
      vals := Bump(vals, ak, -give);
      vals := vals[idk := give];
      return Ok(give);
    }

    method Credit(key: string, spec: Spec, wid: int, amount: int, id: string, now: int) returns (res: Result<bool>)
      modifies this`vals, this`deduped
      ensures res.Err? <==> spec.name.Unknown? || spec.Or() != FixedWindow
      ensures res.Err? ==> St() == old(St())
      ensures res.Ok? ==>
                var x := Transfer(key, spec.WindowMs(), wid, amount, id);
                && res.value == Credits(old(St()), x, now)
                && St() == CreditNext(old(St()), x, now)
    {
      if spec.name.Unknown? || spec.Or() != FixedWindow {
        return Err(BadSpec);
      }
      if WindowOf(now, spec.WindowMs()) != wid {
        return Ok(false);
      }
      var idk := CreditId(key, id);
      if idk in deduped {
        return Ok(false);
      }
      deduped := deduped + {idk};
      vals := Bump(vals, Alloc(key, wid), amount);
      return Ok(true);
    }
  }

  /** Drops one key; what is left is a smaller part of all. */
  function Forget(seen: map<string, int>, all: map<string, int>, e: string): (left: map<string, int>)
    requires e in seen && seen.Keys <= all.Keys
    ensures left.Keys == seen.Keys - {e} && |left| == |seen| - 1 && |left| < |all|
    ensures forall x :: x in left ==> left[x] == seen[x]
  {
    Without(seen, e);
    SubsetSize((seen - {e}).Keys, all.Keys);
    seen - {e}
  }

  lemma CountStep<T>(live: set<T>, rest: set<T>, e: T)
    requires e in rest
    ensures |live - (rest - {e})| == |live - rest| + if e in live then 1 else 0
  {
    if e in live {
      assert live - (rest - {e}) == (live - rest) + {e};
    } else {
      assert live - (rest - {e}) == live - rest;
    }
  }

  lemma Without<V>(m: map<string, V>, e: string)
    requires e in m
    ensures (m - {e}).Keys == m.Keys - {e} && |m - {e}| == |m| - 1
  {}

  lemma SubsetSize<T>(a: set<T>, b: set<T>)
    requires a < b
    ensures |a| < |b|
  {
    assert b == a + (b - a);
  }

  /** Once a list of returns has stopped, the items after it change nothing. */
  lemma {:induction false} ReturnStops(s: State, items: seq<Result<ReturnInput>>, now: int, i: nat)
    requires i <= |items| && AllWellFormed(items)
    requires !ReturnAll(s, items[..i], now).1
    ensures ReturnAll(s, items, now) == ReturnAll(s, items[..i], now)
    decreases |items| - i
  {
    if i == |items| {
      assert items[..i] == items;
    } else {
      assert items[..i + 1][..i] == items[..i];
      ReturnStops(s, items, now, i + 1);
    }
  }
}
