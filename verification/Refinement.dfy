/**
 The scripts over expiring keys answer exactly as the maps that never forget: no key expires while it can
 still change an answer.
 */
module Refinement {
  import opened Numbers
  import opened Ledger
  import opened Grants
  import opened MemLedger
  import opened Traces
  import opened RedisLedger

  /** A quota's window, and how long an edge counts as active: fixed for the whole run. */
  datatype Setting = Setting(win: int, activeMs: int)

  /** What the ids in a run stand for: each transfer belongs to one window, and each dedupe id to one return, whose
      copies all arrive within its dedupe lifetime of the instant it is first sent. */
  datatype Plan = Plan(
    settings: map<string, Setting>,
    lends: map<(string, string), int>,
    credits: map<(string, string), int>,
    returned: map<(string, string), (ReturnInput, int)>)

  ghost predicate Sound(p: Plan) {
    && (forall b :: b in p.settings ==> 1000 <= p.settings[b].win && 0 < p.settings[b].activeMs)
    && (forall i :: i in p.returned ==> WellFormedReturn(p.returned[i].0))
  }

  ghost predicate Known(p: Plan, base: string, win: int) {
    base in p.settings && p.settings[base].win == win
  }

  /** How an operation must fit the plan. Returns never name a window that has not started. */
  ghost predicate Fits(p: Plan, op: Op, at: int)
    requires Proper(op)
  {
    match op
    case Ask(g) =>
      && Known(p, g.key, g.win) && p.settings[g.key].activeMs == g.activeMs
      && (g.parentKey != "" ==> Known(p, g.parentKey, g.pwin))
    case GiveBack(r) =>
      && Known(p, r.key, r.win) && CoversParent(r)
      && (r.algo != TokenBucket ==> r.wid <= WindowOf(at, r.win))
      && (r.parentKey != "" ==> Known(p, r.parentKey, r.pwin) && r.pwid <= WindowOf(at, r.pwin))
      && (r.dedupe != "" ==>
            && (r.key, r.dedupe) in p.returned
            && p.returned[(r.key, r.dedupe)].0 == r
            && (r.algo == TokenBucket ==>
                  p.returned[(r.key, r.dedupe)].1 <= at <= p.returned[(r.key, r.dedupe)].1 + r.dedupeTtl))
    case Lend(x, _, _) =>
      Known(p, x.key, x.win) && (x.key, x.id) in p.lends && p.lends[(x.key, x.id)] == x.wid
    case Credit(x) =>
      Known(p, x.key, x.win) && (x.key, x.id) in p.credits && p.credits[(x.key, x.id)] == x.wid
  }

  // The relation between the two stores, key by key.

  /** A counter or an allocation: equal, and kept until its window and the next are over. */
  ghost predicate CounterRel(p: Plan, e: Option<Entry>, value: int, base: string, wid: int) {
    if e.Some? then
      && base in p.settings && e.value.Num? && e.value.expires.Some?
      && (wid + 2) * p.settings[base].win <= e.value.expires.value
      && e.value.val == value
    else value == 0
  }

  /** A TAT: equal, and kept for a second after it has passed. */
  ghost predicate TatRel(e: Option<Entry>, tat: Option<int>) {
    if e.Some? then e.value.Num? && e.value.expires == Some(e.value.val + 1000) && tat == Some(e.value.val)
    else tat.None?
  }

  /** A transfer id: recorded in both, and kept until its window is over. */
  ghost predicate LendRel(p: Plan, e: Option<Entry>, given: Option<int>, base: string, id: string) {
    if e.Some? then
      && base in p.settings && (base, id) in p.lends && e.value.Num? && e.value.expires.Some?
      && (p.lends[(base, id)] + 1) * p.settings[base].win <= e.value.expires.value
      && given == Some(e.value.val)
    else given.None?
  }

  ghost predicate CreditRel(p: Plan, e: Option<Entry>, seen: bool, base: string, id: string) {
    && e.Some? == seen
    && (e.Some? ==>
          && base in p.settings && (base, id) in p.credits && e.value.expires.Some?
          && (p.credits[(base, id)] + 1) * p.settings[base].win <= e.value.expires.value)
  }

  /** A dedupe id: recorded in both, and kept until a second copy could change nothing. */
  ghost predicate ReturnRel(p: Plan, e: Option<Entry>, seen: bool, base: string, id: string) {
    && e.Some? == seen
    && (e.Some? ==>
          && (base, id) in p.returned && e.value.expires.Some?
          && var (r, sent) := p.returned[(base, id)];
             && (r.algo != TokenBucket ==> (r.wid + 1) * r.win <= e.value.expires.value)
             && (r.algo == TokenBucket ==> sent + r.dedupeTtl <= e.value.expires.value)
             && (r.parentKey != "" ==> (r.pwid + 1) * r.pwin <= e.value.expires.value))
  }

  /** The edges seen for a quota: the same ones are active, and the set outlives every member's activity. */
  ghost predicate EdgesRel(p: Plan, e: Option<Entry>, seen: map<string, int>, base: string, now: int) {
    && (e.Some? ==>
          && base in p.settings && e.value.Members? && e.value.expires.Some?
          && forall x :: x in e.value.scores ==>
               e.value.scores[x] <= now && e.value.scores[x] + p.settings[base].activeMs <= e.value.expires.value)
    && (base in p.settings ==>
          var a := p.settings[base].activeMs;
          var scores := if e.Some? then e.value.scores else map[];
          && (forall x :: x in seen && seen[x] > now - a ==> x in scores && scores[x] == seen[x])
          && (forall x :: x in scores && scores[x] > now - a ==> x in seen && seen[x] == scores[x]))
  }

  function At(db: Db, k: Key): Option<Entry> {
    if k in db then Some(db[k]) else None
  }

  ghost predicate KeyRel(p: Plan, db: Db, s: State, k: Key, now: int) {
    match k
    case Counter(b, w) => CounterRel(p, At(db, k), Get(s.vals, k, 0), b, w)
    case Alloc(b, w) => CounterRel(p, At(db, k), Get(s.vals, k, 0), b, w)
    case Tat(b) => TatRel(At(db, k), Find(s.vals, k))
    case LendId(b, id) => LendRel(p, At(db, k), Find(s.vals, k), b, id)
    case CreditId(b, id) => CreditRel(p, At(db, k), k in s.deduped, b, id)
    case ReturnId(b, id) => ReturnRel(p, At(db, k), k in s.deduped, b, id)
    case EdgeSet(b) => EdgesRel(p, At(db, k), SeenBy(s, b), b, now)
  }

  ghost predicate Rel(p: Plan, db: Db, s: State, now: int) {
    forall k :: KeyRel(p, db, s, k, now)
  }

  // Reading.

  lemma RelLater(p: Plan, db: Db, s: State, t: int, t': int)
    requires Rel(p, db, s, t) && t <= t'
    ensures Rel(p, db, s, t')
  {
    forall k ensures KeyRel(p, db, s, k, t') {
      assert KeyRel(p, db, s, k, t);
    }
  }

  /** A counter that is read in its own window, or in the next, has not expired. */
  lemma CounterReads(p: Plan, db: Db, s: State, k: Key, win: int, now: int)
    requires Sound(p) && Rel(p, db, s, now)
    requires (k.Counter? || k.Alloc?) && Known(p, k.base, win) && now < (k.wid + 2) * win
    ensures NumOr(db, k, 0, now) == Get(s.vals, k, 0)
    ensures k in db <==> GetNum(db, k, now).Some?
  {
    assert KeyRel(p, db, s, k, now);
  }

  lemma TatReads(p: Plan, db: Db, s: State, base: string, now: int)
    requires Rel(p, db, s, now)
    ensures LuaTat(db, base, now) == TatOf(s.vals, base, now)
  {
    assert KeyRel(p, db, s, Tat(base), now);
  }

  lemma EdgesRead(p: Plan, db: Db, s: State, base: string, edge: string, now: int)
    requires Rel(p, db, s, now) && base in p.settings && 0 < p.settings[base].activeMs
    ensures var a := p.settings[base].activeMs;
            Active(ScoresOf(db, EdgeSet(base), now)[edge := now], now, a) ==
            Active(SeenBy(s, base)[edge := now], now, a)
  {
    assert KeyRel(p, db, s, EdgeSet(base), now);
  }

  /** Both ledgers read the same numbers. */
  lemma SameReads(p: Plan, db: Db, s: State, g: GrantInput, now: int)
    requires Sound(p) && Rel(p, db, s, now) && WellFormed(g) && Fits(p, Ask(g), now)
    ensures LuaReads(db, g, now) == ReadsOf(s, g, now)
  {
    hide Rel, Sound, Active, NumOr, GetNum, LuaTat, TatOf, ScoresOf;
    var w := WindowOf(now, g.win);
    WindowBounds(now, g.win);
    assert (w + 2) * g.win == (w + 1) * g.win + g.win;
    CounterReads(p, db, s, Counter(g.key, w), g.win, now);
    CounterReads(p, db, s, Alloc(g.key, w), g.win, now);
    CounterReads(p, db, s, Counter(g.key, w - 1), g.win, now);
    TatReads(p, db, s, g.key, now);
    EdgesRead(p, db, s, g.key, g.edge, now);
    if g.parentKey != "" {
      var v := WindowOf(now, g.pwin);
      WindowBounds(now, g.pwin);
      assert (v + 2) * g.pwin == (v + 1) * g.pwin + g.pwin;
      CounterReads(p, db, s, Counter(g.parentKey, v), g.pwin, now);
    }
  }

  // Writing.

  /** Changing what both stores hold under one key keeps them related when that key is. */
  lemma OneKeyChanges(p: Plan, db: Db, s: State, db': Db, s': State, k: Key, now: int)
    requires Rel(p, db, s, now) && KeyRel(p, db', s', k, now)
    requires forall j :: j != k ==> At(db', j) == At(db, j) && Find(s'.vals, j) == Find(s.vals, j)
    requires forall j :: j != k ==> (j in s'.deduped <==> j in s.deduped)
    requires forall b :: EdgeSet(b) != k ==> SeenBy(s', b) == SeenBy(s, b)
    ensures Rel(p, db', s', now)
  {
    hide CounterRel, TatRel, LendRel, CreditRel, ReturnRel, EdgesRel, SeenBy, At;
    forall j ensures KeyRel(p, db', s', j, now) {
      assert KeyRel(p, db, s, j, now);
      if j != k {
        assert At(db', j) == At(db, j) && Find(s'.vals, j) == Find(s.vals, j);
        assert Get(s'.vals, j, 0) == Get(s.vals, j, 0);
      }
    }
  }

  /** Adding to a counter, or to an allocation, of the current window keeps the stores related. */
  lemma AddKeeps(p: Plan, db: Db, s: State, k: Key, win: int, n: int, now: int)
    requires Sound(p) && Rel(p, db, s, now)
    requires (k.Counter? || k.Alloc?) && Known(p, k.base, win) && WindowOf(now, win) == k.wid
    ensures Rel(p, LuaAdd(db, k, n, 2 * win + 1000, now), s.(vals := Bump(s.vals, k, n)), now)
  {
    InWindow(now, win, k.wid);
    CounterReads(p, db, s, k, win, now);
    assert KeyRel(p, db, s, k, now);
    var s', db' := s.(vals := Bump(s.vals, k, n)), LuaAdd(db, k, n, 2 * win + 1000, now);
    assert db' == db[k := Num(Get(s.vals, k, 0) + n, Some(now + 2 * win + 1000))];
    assert KeyRel(p, db', s', k, now);
    hide KeyRel, Rel, LuaAdd;
    OneKeyChanges(p, db, s, db', s', k, now);
  }

  /** The same when only a counter that starts from zero gets a fresh lifetime: any other still has enough left. */
  lemma BumpKeeps(p: Plan, db: Db, s: State, k: Key, win: int, n: int, now: int)
    requires Sound(p) && Rel(p, db, s, now)
    requires k.Counter? && Known(p, k.base, win) && WindowOf(now, win) == k.wid
    ensures Rel(p, LuaBump(db, k, n, 2 * win + 1000, now), s.(vals := Bump(s.vals, k, n)), now)
  {
    InWindow(now, win, k.wid);
    CounterReads(p, db, s, k, win, now);
    assert KeyRel(p, db, s, k, now);
    var s', db' := s.(vals := Bump(s.vals, k, n)), LuaBump(db, k, n, 2 * win + 1000, now);
    assert k in db' && db' == db[k := db'[k]];
    assert KeyRel(p, db', s', k, now);
    hide KeyRel, Rel, LuaBump;
    OneKeyChanges(p, db, s, db', s', k, now);
  }

  lemma InWindow(now: int, win: int, wid: int)
    requires 0 < win && WindowOf(now, win) == wid
    ensures wid * win <= now < (wid + 1) * win
    ensures now < (wid + 2) * win <= now + 2 * win
  {}

  lemma TatKeeps(p: Plan, db: Db, s: State, base: string, tat: int, now: int)
    requires Rel(p, db, s, now)
    ensures Rel(p, SetPx(db, Tat(base), tat, tat - now + 1000, now), s.(vals := s.vals[Tat(base) := tat]), now)
  {
    var db', s' := SetPx(db, Tat(base), tat, tat - now + 1000, now), s.(vals := s.vals[Tat(base) := tat]);
    forall k ensures KeyRel(p, db', s', k, now) {
      assert KeyRel(p, db, s, k, now);
    }
  }

  /** Registering an edge: pruning on one side and expiry on the other only ever lose edges that no longer count. */
  lemma RegisterKeeps(p: Plan, db: Db, s: State, g: GrantInput, now: int, edges: map<string, map<string, int>>)
    requires Rel(p, db, s, now) && WellFormed(g) && Fits(p, Ask(g), now) && 0 < p.settings[g.key].activeMs
    requires g.key in edges && edges == s.edges[g.key := edges[g.key]]
    requires Pruned(SeenBy(s, g.key)[g.edge := now], edges[g.key], now, g.activeMs)
    ensures Rel(p, LuaRegister(db, g, now), s.(edges := edges), now)
  {
    var k := EdgeSet(g.key);
    var db', s' := LuaRegister(db, g, now), s.(edges := edges);
    var scores := ScoresOf(db, k, now)[g.edge := now];
    assert db' == db[k := Members(scores, Some(now + g.activeMs))];
    RegisteredEdges(p, db, s, g, now, edges[g.key]);
    hide Rel, EdgesRel, LuaRegister, ScoresOf, Pruned, WellFormed, Fits;
    assert SeenBy(s', g.key) == edges[g.key];
    assert KeyRel(p, db', s', k, now);
    OneKeyChanges(p, db, s, db', s', k, now);
  }

  lemma RegisteredEdges(p: Plan, db: Db, s: State, g: GrantInput, now: int, kept: map<string, int>)
    requires Rel(p, db, s, now) && WellFormed(g) && Fits(p, Ask(g), now) && 0 < p.settings[g.key].activeMs
    requires Pruned(SeenBy(s, g.key)[g.edge := now], kept, now, g.activeMs)
    ensures var scores := ScoresOf(db, EdgeSet(g.key), now)[g.edge := now];
            EdgesRel(p, Some(Members(scores, Some(now + g.activeMs))), kept, g.key, now)
  {
    var k, a := EdgeSet(g.key), g.activeMs;
    assert KeyRel(p, db, s, k, now);
    var all := SeenBy(s, g.key)[g.edge := now];
    var scores := ScoresOf(db, k, now)[g.edge := now];
    EdgesRead(p, db, s, g.key, g.edge, now);
    forall x | x in kept && kept[x] > now - a ensures x in scores && scores[x] == kept[x] {
      assert x in Active(all, now, a);
    }
    forall x | x in scores && scores[x] > now - a ensures x in kept && kept[x] == scores[x] {
      assert x in Active(scores, now, a);
      assert x in Active(all, now, a);
    }
  }

  // The four operations.

  lemma ChargeKeeps(p: Plan, db: Db, s: State, g: GrantInput, n: int, now: int)
    requires Sound(p) && Rel(p, db, s, now) && WellFormed(g) && Fits(p, Ask(g), now)
    ensures Rel(p, LuaCharge(db, g, n, TatOf(s.vals, g.key, now), now), s.(vals := ChargedVals(s.vals, g, n, now)), now)
  {
    hide Rel, Sound, LuaBump, LuaAdd, SetPx, ChargedTat, Bump;
    var k := Counter(g.key, WindowOf(now, g.win));
    var db1, s1;
    if g.algo == TokenBucket {
      var tat := ChargedTat(g.rate, TatOf(s.vals, g.key, now), n);
      db1, s1 := SetPx(db, Tat(g.key), tat, tat - now + 1000, now), s.(vals := s.vals[Tat(g.key) := tat]);
      TatKeeps(p, db, s, g.key, tat, now);
    } else {
      db1, s1 := LuaBump(db, k, n, 2 * g.win + 1000, now), s.(vals := Bump(s.vals, k, n));
      BumpKeeps(p, db, s, k, g.win, n, now);
    }
    if g.parentKey != "" {
      AddKeeps(p, db1, s1, Counter(g.parentKey, WindowOf(now, g.pwin)), g.pwin, n, now);
    }
  }

  lemma AskKeeps(p: Plan, db: Db, s: State, g: GrantInput, now: int, s': State, a: Answer)
    requires Sound(p) && Rel(p, db, s, now) && WellFormed(g) && Fits(p, Ask(g), now)
    requires MemStep(s, Event(now, Ask(g)), s', a)
    ensures Rel(p, LuaGrant(db, g, now), s', now)
    ensures a == ForAsk(Outcome(g, LuaReads(db, g, now)))
  {
    assert 0 < p.settings[g.key].activeMs;
    hide Rel, Sound, Fits, LuaRegister, LuaCharge, ChargedVals, Granted, Avail, LuaReads, ReadsOf, Outcome, Pruned;
    SameReads(p, db, s, g, now);
    var r := ReadsOf(s, g, now);
    var db1, s1 := db, s;
    if Registers(g, r) {
      db1, s1 := LuaRegister(db, g, now), s.(edges := s'.edges);
      RegisterKeeps(p, db, s, g, now, s'.edges);
    }
    if Avail(g, r) > 0 {
      ReadsTat(s, g, now);
      ChargeKeeps(p, db1, s1, g, Granted(g, r), now);
    }
  }

  lemma ReadsTat(s: State, g: GrantInput, now: int)
    requires WellFormed(g)
    ensures ReadsOf(s, g, now).tat == TatOf(s.vals, g.key, now)
  {}

  lemma CreditCounterKeeps(p: Plan, db: Db, s: State, k: Key, win: int, n: int, now: int)
    requires Sound(p) && Rel(p, db, s, now)
    requires k.Counter? && Known(p, k.base, win) && WindowOf(now, win) == k.wid
    ensures Rel(p, LuaCredit(db, k, n, 2 * win + 1000, now), s.(vals := CreditCounter(s.vals, k, n)), now)
  {
    hide LuaAdd, NumOr, GetNum;
    var used := Get(s.vals, k, 0);
    var s' := s.(vals := CreditCounter(s.vals, k, n));
    InWindow(now, win, k.wid);
    CounterReads(p, db, s, k, win, now);
    if Min(n, used) != 0 {
      AddKeeps(p, db, s, k, win, -Min(n, used), now);
      assert s' == s.(vals := Bump(s.vals, k, -Min(n, used)));
    } else {
      assert KeyRel(p, db, s, k, now);
      hide Rel;
      OneKeyChanges(p, db, s, db, s', k, now);
    }
  }

  lemma ReturnValsKeep(p: Plan, db: Db, s: State, r: ReturnInput, now: int)
    requires Sound(p) && Rel(p, db, s, now) && WellFormedReturn(r)
    requires Known(p, r.key, r.win) && (r.parentKey != "" ==> Known(p, r.parentKey, r.pwin))
    ensures Rel(p, LuaReturnVals(db, r, now), s.(vals := ReturnVals(s.vals, r, now)), now)
  {
    hide Rel, Sound, LuaCredit, CreditCounter, SetPx, RefundedTat, LuaTat, TatOf;
    var db1, s1 := db, s;
    if r.algo == TokenBucket {
      TatReads(p, db, s, r.key, now);
      var tat := RefundedTat(r.rate, TatOf(s.vals, r.key, now), r.tokens, now);
      db1, s1 := SetPx(db, Tat(r.key), tat, tat - now + 1000, now), s.(vals := s.vals[Tat(r.key) := tat]);
      TatKeeps(p, db, s, r.key, tat, now);
    } else if WindowOf(now, r.win) == r.wid {
      var k := Counter(r.key, r.wid);
      db1, s1 := LuaCredit(db, k, r.tokens, 2 * r.win + 1000, now), s.(vals := CreditCounter(s.vals, k, r.tokens));
      CreditCounterKeeps(p, db, s, k, r.win, r.tokens, now);
    }
    if r.parentKey != "" && WindowOf(now, r.pwin) == r.pwid {
      CreditCounterKeeps(p, db1, s1, Counter(r.parentKey, r.pwid), r.pwin, r.tokens, now);
    }
  }

  /** Recording a dedupe id, for the first time or again after it expired. */
  lemma DedupeKeeps(p: Plan, db: Db, s: State, r: ReturnInput, now: int)
    requires Sound(p) && Rel(p, db, s, now) && WellFormedReturn(r) && Fits(p, GiveBack(r), now) && r.dedupe != ""
    ensures var id := ReturnId(r.key, r.dedupe);
            Rel(p, SetPx(db, id, 1, r.dedupeTtl, now), s.(deduped := s.deduped + {id}), now)
  {
    var id := ReturnId(r.key, r.dedupe);
    var db', s' := SetPx(db, id, 1, r.dedupeTtl, now), s.(deduped := s.deduped + {id});
    if r.algo != TokenBucket {
      StartedBefore(now, r.win, r.wid);
    }
    if r.parentKey != "" {
      StartedBefore(now, r.pwin, r.pwid);
    }
    assert ReturnRel(p, Some(Num(1, Some(now + r.dedupeTtl))), true, r.key, r.dedupe);
    assert KeyRel(p, db', s', id, now);
    hide Rel, KeyRel;
    OneKeyChanges(p, db, s, db', s', id, now);
  }

  lemma StartedBefore(now: int, win: int, wid: int)
    requires 0 < win && wid <= WindowOf(now, win)
    ensures (wid + 1) * win <= now + win
  {}

  /** A window that ended before its dedupe record did is not current when a late copy arrives. */
  lemma LateCopyMissesItsWindow(now: int, win: int, wid: int, expires: int)
    requires 0 < win && (wid + 1) * win <= expires < now
    ensures WindowOf(now, win) != wid
  {}

  lemma ReturnKeeps(p: Plan, db: Db, s: State, r: ReturnInput, now: int)
    requires Sound(p) && Rel(p, db, s, now) && WellFormedReturn(r) && Fits(p, GiveBack(r), now)
    ensures Rel(p, LuaReturn(db, r, now), ReturnOne(s, r, now), now)
  {
    var id := ReturnId(r.key, r.dedupe);
    if r.dedupe == "" {
      hide Rel, LuaReturnVals, ReturnVals, Sound;
      ReturnValsKeep(p, db, s, r, now);
    } else {
      assert KeyRel(p, db, s, id, now);
      assert id in db <==> id in s.deduped;
      DedupeKeeps(p, db, s, r, now);
      var db1, s1 := SetPx(db, id, 1, r.dedupeTtl, now), s.(deduped := s.deduped + {id});
      if Live(db, id, now) {
        assert id in s.deduped;
      } else if id in db {
        assert r.algo != TokenBucket;
        LateCopyMissesItsWindow(now, r.win, r.wid, db[id].expires.value);
        if r.parentKey != "" {
          LateCopyMissesItsWindow(now, r.pwin, r.pwid, db[id].expires.value);
        }
        assert LuaReturn(db, r, now) == db1;
        assert s1 == s;
      } else {
        hide Rel, LuaReturnVals, ReturnVals, Sound, SetPx, KeyRel;
        ReturnValsKeep(p, db1, s1, r, now);
      }
    }
  }

  lemma SetIdKeeps(p: Plan, db: Db, s: State, x: Transfer, give: int, now: int)
    requires Sound(p) && Rel(p, db, s, now) && 0 < x.win && WindowOf(now, x.win) == x.wid
    requires Fits(p, Lend(x, 0, 0), now)
    ensures var id := LendId(x.key, x.id);
            Rel(p, SetPx(db, id, give, 2 * x.win + 1000, now), s.(vals := s.vals[id := give]), now)
  {
    var id := LendId(x.key, x.id);
    var db', s' := SetPx(db, id, give, 2 * x.win + 1000, now), s.(vals := s.vals[id := give]);
    InWindow(now, x.win, x.wid);
    assert KeyRel(p, db', s', id, now);
    hide Rel, KeyRel;
    OneKeyChanges(p, db, s, db', s', id, now);
  }

  /** A lend reads the same record, use and allocation in both stores. */
  lemma LendReads(p: Plan, db: Db, s: State, x: Transfer, base: int, margin: int, now: int)
    requires Sound(p) && Rel(p, db, s, now) && 0 < x.win && Fits(p, Lend(x, base, margin), now)
    requires WindowOf(now, x.win) == x.wid
    ensures GetNum(db, LendId(x.key, x.id), now) == Find(s.vals, LendId(x.key, x.id))
    ensures LuaLent(db, x, base, margin, now) == LendAmount(s, x, base, margin, now)
  {
    var id, ak := LendId(x.key, x.id), Alloc(x.key, x.wid);
    InWindow(now, x.win, x.wid);
    assert KeyRel(p, db, s, id, now);
    assert GetNum(db, id, now) == Find(s.vals, id);
    hide Rel, Sound, NumOr, Kept, KeyRel, GetNum, SetPx;
    CounterReads(p, db, s, ak, x.win, now);
    CounterReads(p, db, s, Counter(x.key, x.wid), x.win, now);
  }

  lemma LendKeeps(p: Plan, db: Db, s: State, x: Transfer, base: int, margin: int, now: int)
    requires Sound(p) && Rel(p, db, s, now) && 0 < x.win && Fits(p, Lend(x, base, margin), now)
    ensures Rel(p, LuaLend(db, x, base, margin, now), LendNext(s, x, base, margin, now), now)
    ensures LuaLent(db, x, base, margin, now) == LendAmount(s, x, base, margin, now)
  {
    hide Rel, Sound, NumOr, Kept, KeyRel, GetNum, SetPx, Given;
    if WindowOf(now, x.win) == x.wid {
      var id, ak := LendId(x.key, x.id), Alloc(x.key, x.wid);
      LendReads(p, db, s, x, base, margin, now);
      var give := LendAmount(s, x, base, margin, now);
      if id !in s.vals {
        var s1 := s.(vals := Bump(s.vals, ak, -give));
        if give > 0 {
          AddKeeps(p, db, s, ak, x.win, -give, now);
          SetIdKeeps(p, LuaAdd(db, ak, -give, 2 * x.win + 1000, now), s1, x, give, now);
        } else {
          LentIsNat(s, x, base, margin, now);
          NothingLent(p, db, s, ak, now);
          SetIdKeeps(p, db, s1, x, give, now);
        }
      }
    }
  }

  lemma LentIsNat(s: State, x: Transfer, base: int, margin: int, now: int)
    requires 0 < x.win && LendId(x.key, x.id) !in s.vals
    ensures 0 <= LendAmount(s, x, base, margin, now)
  {}

  lemma NothingLent(p: Plan, db: Db, s: State, k: Key, now: int)
    requires Rel(p, db, s, now) && k.Alloc?
    ensures Rel(p, db, s.(vals := Bump(s.vals, k, 0)), now)
  {
    assert KeyRel(p, db, s, k, now);
    hide Rel;
    OneKeyChanges(p, db, s, db, s.(vals := Bump(s.vals, k, 0)), k, now);
  }

  lemma CreditKeeps(p: Plan, db: Db, s: State, x: Transfer, now: int)
    requires Sound(p) && Rel(p, db, s, now) && 0 < x.win && Fits(p, Credit(x), now)
    ensures Rel(p, LuaCreditDb(db, x, now), CreditNext(s, x, now), now)
    ensures LuaCredits(db, x, now) == Credits(s, x, now)
  {
    if WindowOf(now, x.win) == x.wid {
      var id := CreditId(x.key, x.id);
      InWindow(now, x.win, x.wid);
      assert KeyRel(p, db, s, id, now);
      if id !in s.deduped {
        var db1, s1 := SetPx(db, id, 1, 2 * x.win + 1000, now), s.(deduped := s.deduped + {id});
        assert KeyRel(p, db1, s1, id, now);
        hide Rel, KeyRel, SetPx;
        OneKeyChanges(p, db, s, db1, s1, id, now);
        AddKeeps(p, db1, s1, Alloc(x.key, x.wid), x.win, x.amount, now);
      }
    }
  }

  // Whole runs.

  /** The database after one operation, and the scripts' answer. */
  function ScriptStep(db: Db, e: Event): (Db, Answer)
    requires Proper(e.op)
  {
    match e.op
    case Ask(g) => (LuaGrant(db, g, e.at), ForAsk(Outcome(g, LuaReads(db, g, e.at))))
    case GiveBack(r) => (LuaReturn(db, r, e.at), ForReturn)
    case Lend(x, base, margin) => (LuaLend(db, x, base, margin, e.at), ForLend(LuaLent(db, x, base, margin, e.at)))
    case Credit(x) => (LuaCreditDb(db, x, e.at), ForCredit(LuaCredits(db, x, e.at)))
  }

  function ScriptDb(events: seq<Event>, n: nat): Db
    requires n <= |events| && forall i :: 0 <= i < |events| ==> Proper(events[i].op)
  {
    if n == 0 then map[] else ScriptStep(ScriptDb(events, n - 1), events[n - 1]).0
  }

  lemma StepRefines(p: Plan, db: Db, s: State, e: Event, s': State, a: Answer)
    requires Sound(p) && Proper(e.op) && Fits(p, e.op, e.at) && Rel(p, db, s, e.at) && MemStep(s, e, s', a)
    ensures Rel(p, ScriptStep(db, e).0, s', e.at) && ScriptStep(db, e).1 == a
  {
    hide Rel, Sound, LuaGrant, LuaReturn, LuaLend, LuaCreditDb, GrantVals, ReturnOne, LendNext, CreditNext, Outcome,
      LuaReads;
    match e.op
    case Ask(g) => AskKeeps(p, db, s, g, e.at, s', a);
    case GiveBack(r) => ReturnKeeps(p, db, s, r, e.at);
    case Lend(x, base, margin) => LendKeeps(p, db, s, x, base, margin, e.at);
    case Credit(x) => CreditKeeps(p, db, s, x, e.at);
  }

  lemma {:induction false} RunRefines(p: Plan, states: seq<State>, events: seq<Event>, answers: seq<Answer>, n: nat,
                                      now: int)
    requires MemRun(states, events, answers) && states[0] == EMPTY && n <= |events| && Sound(p)
    requires forall i :: 0 <= i < |events| ==> Fits(p, events[i].op, events[i].at)
    requires 0 < n ==> events[n - 1].at <= now
    ensures Rel(p, ScriptDb(events, n), states[n], now)
    ensures forall i :: 0 <= i < n ==> ScriptStep(ScriptDb(events, i), events[i]).1 == answers[i]
  {
    if n == 0 {
    } else {
      hide Rel, Sound, Fits, MemStep, ScriptStep;
      var e := events[n - 1];
      RunRefines(p, states, events, answers, n - 1, e.at);
      assert MemStep(states[n - 1], e, states[n], answers[n - 1]);
      StepRefines(p, ScriptDb(events, n - 1), states[n - 1], e, states[n], answers[n - 1]);
      RelLater(p, ScriptDb(events, n), states[n], e.at, now);
    }
  }

  /** Refinement: over every sequence of grants, returns, lends and credits at times that never go back, the scripts
      over expiring keys give, one by one, the answers of the ledger that never forgets. */
  lemma {:induction false} ScriptsAnswerAsMem(p: Plan, states: seq<State>, events: seq<Event>, answers: seq<Answer>)
    requires MemRun(states, events, answers) && states[0] == EMPTY && Sound(p)
    requires forall i :: 0 <= i < |events| ==> Fits(p, events[i].op, events[i].at)
    ensures forall i :: 0 <= i < |events| ==> ScriptStep(ScriptDb(events, i), events[i]).1 == answers[i]
  {
    hide Rel, Sound, Fits, MemStep, ScriptStep;
    var now := if |events| == 0 then 0 else events[|events| - 1].at;
    RunRefines(p, states, events, answers, |events|, now);
  }
}
