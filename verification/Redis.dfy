/**
 The production ledger: scripts over keys that expire. A key is readable up to and including its expiry
 time; a write to an expired key starts from nothing, as on a missing one.
 */
module RedisLedger {
  import opened Numbers
  import opened Ledger
  import opened Grants
  import opened MemLedger

  datatype Entry = Num(val: int, expires: Option<int>) | Members(scores: map<string, int>, expires: Option<int>)

  type Db = map<Key, Entry>

  predicate Live(db: Db, k: Key, now: int) {
    k in db && (db[k].expires.Some? ==> now <= db[k].expires.value)
  }

  // The commands the scripts use.

  function GetNum(db: Db, k: Key, now: int): Option<int> {
    if Live(db, k, now) && db[k].Num? then Some(db[k].val) else None
  }

  function NumOr(db: Db, k: Key, default: int, now: int): int {
    if GetNum(db, k, now).Some? then GetNum(db, k, now).value else default
  }

  function IncrBy(db: Db, k: Key, n: int, now: int): Db {
    if GetNum(db, k, now).Some? then db[k := Num(db[k].val + n, db[k].expires)] else db[k := Num(n, None)]
  }

  function PExpire(db: Db, k: Key, ttl: int, now: int): Db {
    if Live(db, k, now) then db[k := db[k].(expires := Some(now + ttl))] else db
  }

  function SetPx(db: Db, k: Key, v: int, ttl: int, now: int): Db {
    db[k := Num(v, Some(now + ttl))]
  }

  function ScoresOf(db: Db, k: Key, now: int): map<string, int> {
    if Live(db, k, now) && db[k].Members? then db[k].scores else map[]
  }

  function ZAdd(db: Db, k: Key, member: string, score: int, now: int): Db {
    var expires := if Live(db, k, now) then db[k].expires else None;
    db[k := Members(ScoresOf(db, k, now)[member := score], expires)]
  }

  /** Counts members with a score strictly above low. */
  function ZCount(db: Db, k: Key, low: int, now: int): int {
    |set e | e in ScoresOf(db, k, now) && ScoresOf(db, k, now)[e] > low|
  }

  // The scripts, as functions of the database.

  function LuaTat(db: Db, base: string, now: int): int {
    EffectiveTat(GetNum(db, Tat(base), now), now)
  }

  function LuaReads(db: Db, g: GrantInput, now: int): (r: Reads)
    requires WellFormed(g)
    ensures 1 <= r.active && r.now == now
  {
    var wid := WindowOf(now, g.win);
    var seen := ScoresOf(db, EdgeSet(g.key), now);
    RegisteredIsActive(seen, g.edge, now, g.activeMs);
    Reads(
      now,
      LuaTat(db, g.key, now),
      NumOr(db, Alloc(g.key, wid), 0, now),
      NumOr(db, Counter(g.key, wid), 0, now),
      NumOr(db, Counter(g.key, wid - 1), 0, now),
      if g.parentKey != "" then NumOr(db, Counter(g.parentKey, WindowOf(now, g.pwin)), 0, now) else 0,
      |Active(seen[g.edge := now], now, g.activeMs)|)
  }

  function LuaRegister(db: Db, g: GrantInput, now: int): Db {
    PExpire(ZAdd(db, EdgeSet(g.key), g.edge, now, now), EdgeSet(g.key), g.activeMs, now)
  }

  /** INCRBY, with a fresh lifetime when the counter starts from zero. */
  function LuaBump(db: Db, k: Key, n: int, ttl: int, now: int): Db {
    var db' := IncrBy(db, k, n, now);
    if NumOr(db', k, 0, now) == n then PExpire(db', k, ttl, now) else db'
  }

  function LuaAdd(db: Db, k: Key, n: int, ttl: int, now: int): Db {
    PExpire(IncrBy(db, k, n, now), k, ttl, now)
  }

  function LuaCharge(db: Db, g: GrantInput, n: int, tat: int, now: int): Db
    requires WellFormed(g)
  {
    var charged := if g.algo == TokenBucket
      then SetPx(db, Tat(g.key), ChargedTat(g.rate, tat, n), ChargedTat(g.rate, tat, n) - now + 1000, now)
      else LuaBump(db, Counter(g.key, WindowOf(now, g.win)), n, 2 * g.win + 1000, now);
    if g.parentKey != ""
    then LuaAdd(charged, Counter(g.parentKey, WindowOf(now, g.pwin)), n, 2 * g.pwin + 1000, now)
    else charged
  }

  function LuaGrant(db: Db, g: GrantInput, now: int): Db
    requires WellFormed(g)
  {
    var r := LuaReads(db, g, now);
    var db' := if Registers(g, r) then LuaRegister(db, g, now) else db;
    if Avail(g, r) <= 0 then db' else LuaCharge(db', g, Granted(g, r), r.tat, now)
  }

  function LuaCredit(db: Db, k: Key, n: int, ttl: int, now: int): Db {
    var used := NumOr(db, k, 0, now);
    var c := Min(n, used);
    if c != 0 then LuaAdd(db, k, -c, ttl, now) else db
  }

  function LuaReturnVals(db: Db, r: ReturnInput, now: int): Db
    requires WellFormedReturn(r)
  {
    var own := if r.algo == TokenBucket then
        var tat := RefundedTat(r.rate, LuaTat(db, r.key, now), r.tokens, now);
        SetPx(db, Tat(r.key), tat, tat - now + 1000, now)
      else if WindowOf(now, r.win) == r.wid then
        LuaCredit(db, Counter(r.key, r.wid), r.tokens, 2 * r.win + 1000, now)
      else db;
    if r.parentKey != "" && WindowOf(now, r.pwin) == r.pwid
    then LuaCredit(own, Counter(r.parentKey, r.pwid), r.tokens, 2 * r.pwin + 1000, now)
    else own
  }

  function LuaReturn(db: Db, r: ReturnInput, now: int): Db
    requires WellFormedReturn(r)
  {
    var id := ReturnId(r.key, r.dedupe);
    if r.dedupe != "" && Live(db, id, now) then db
    else LuaReturnVals(if r.dedupe != "" then SetPx(db, id, 1, r.dedupeTtl, now) else db, r, now)
  }

  function LuaLent(db: Db, x: Transfer, base: int, margin: int, now: int): int
    requires 0 < x.win
  {
    if WindowOf(now, x.win) != x.wid then 0
    else if GetNum(db, LendId(x.key, x.id), now).Some? then GetNum(db, LendId(x.key, x.id), now).value
    else
      var used := NumOr(db, Counter(x.key, x.wid), 0, now);
      Given(x.amount, base + NumOr(db, Alloc(x.key, x.wid), 0, now), used, Kept(used, now, x.win, margin))
  }

  function LuaLend(db: Db, x: Transfer, base: int, margin: int, now: int): Db
    requires 0 < x.win
  {
    var give := LuaLent(db, x, base, margin, now);
    if WindowOf(now, x.win) != x.wid || GetNum(db, LendId(x.key, x.id), now).Some? then db
    else
      var debited := if give > 0 then LuaAdd(db, Alloc(x.key, x.wid), -give, 2 * x.win + 1000, now) else db;
      SetPx(debited, LendId(x.key, x.id), give, 2 * x.win + 1000, now)
  }

  predicate LuaCredits(db: Db, x: Transfer, now: int)
    requires 0 < x.win
  {
    WindowOf(now, x.win) == x.wid && !Live(db, CreditId(x.key, x.id), now)
  }

  function LuaCreditDb(db: Db, x: Transfer, now: int): Db
    requires 0 < x.win
  {
    if !LuaCredits(db, x, now) then db
    else
      var seen := SetPx(db, CreditId(x.key, x.id), 1, 2 * x.win + 1000, now);
      LuaAdd(seen, Alloc(x.key, x.wid), x.amount, 2 * x.win + 1000, now)
  }

  /** A Redis database and the scripts that change it; now is the server's clock, read once per script. */
  class Redis {
    var db: Db

    constructor ()
      ensures db == map[]
    {
      db := map[];
    }

    /** What the quota itself has left, and the numbers a denial needs. */
    method KeyLeft(g: GrantInput, now: int)
      returns (avail: int, wid: int, reset: int, expires: int, tat: int, prev: int, cur: int, limit: int, f: real)
      requires WellFormed(g)
      ensures avail == KeyAvail(g, LuaReads(db, g, now))
      ensures tat == if g.algo == TokenBucket then LuaTat(db, g.key, now) else 0
      ensures limit == if g.algo == TokenBucket then g.limit else Capacity(g, LuaReads(db, g, now).alloc)
      ensures wid == if g.algo == TokenBucket then 0 else WindowOf(now, g.win)
      ensures reset == if g.algo == TokenBucket then 0 else Remainder(now, g.win)
      ensures expires == if g.algo == TokenBucket then g.ttl else reset
      ensures g.algo != TokenBucket ==> cur == LuaReads(db, g, now).cur
      ensures g.algo == SlidingWindow ==> prev == LuaReads(db, g, now).prev && f == Elapsed(now, g.win)
    {
      limit := g.limit;
      avail, wid, reset, expires, tat, prev, cur, f := 0, 0, 0, 0, 0, 0, 0, 0.0;
      if g.algo == TokenBucket {
        var t := Interval(g.rate);
        tat := NumOr(db, Tat(g.key), now, now);
        if tat < now {
          tat := now;
        }
        avail := ((now as real + Worth(limit, t) - tat as real) / t).Floor;
        expires := g.ttl;
      } else {
        wid := WindowOf(now, g.win);
        reset := (wid + 1) * g.win - now;
        expires := reset;
        if g.allocBase >= 0 {
          limit := g.allocBase + NumOr(db, Alloc(g.key, wid), 0, now);
        }
        cur := NumOr(db, Counter(g.key, wid), 0, now);
        var used := cur;
        if g.algo == SlidingWindow {
          prev := NumOr(db, Counter(g.key, wid - 1), 0, now);
          f := (now - wid * g.win) as real / g.win as real;
          used := used + Ceil(prev as real * (1.0 - f));
        }
        avail := limit - used;
      }
    }

    method Register(g: GrantInput, now: int) returns (n: int)
      requires WellFormed(g)
      modifies this
      ensures db == LuaRegister(old(db), g, now)
      ensures n == |Active(ScoresOf(old(db), EdgeSet(g.key), now)[g.edge := now], now, g.activeMs)|
    {
      var k := EdgeSet(g.key);
      db := ZAdd(db, k, g.edge, now, now);
      db := PExpire(db, k, g.activeMs, now);
      n := ZCount(db, k, now - g.activeMs, now);
      ghost var all := ScoresOf(old(db), k, now)[g.edge := now];
      assert ScoresOf(db, k, now) == all;
      assert Active(all, now, g.activeMs) == set e | e in all && all[e] > now - g.activeMs;
    }

    method Charge(g: GrantInput, n: int, tat: int, ghost read: int, now: int) returns (reset: int)
      requires WellFormed(g) && (g.algo == TokenBucket ==> tat == read)
      modifies this
      ensures db == LuaCharge(old(db), g, n, read, now)
      ensures reset == if g.algo == TokenBucket then ChargedTat(g.rate, tat, n) - now else Remainder(now, g.win)
    {
      hide ChargedTat;
      reset := Remainder(now, g.win);
      if g.algo == TokenBucket {
        var next := ChargedTat(g.rate, tat, n);
        db := SetPx(db, Tat(g.key), next, next - now + 1000, now);
        reset := next - now;
      } else {
        var k := Counter(g.key, WindowOf(now, g.win));
        db := IncrBy(db, k, n, now);
        if NumOr(db, k, 0, now) == n {
          db := PExpire(db, k, 2 * g.win + 1000, now);
        }
      }
      if g.parentKey != "" {
        var pk := Counter(g.parentKey, WindowOf(now, g.pwin));
        db := IncrBy(db, pk, n, now);
        db := PExpire(db, pk, 2 * g.pwin + 1000, now);
      }
    }

    /** The grant script. */
    method Grant(g: GrantInput, now: int) returns (reply: Reply)
      requires WellFormed(g)
      modifies this
      ensures reply == Outcome(g, LuaReads(old(db), g, now))
      ensures db == LuaGrant(old(db), g, now)
    {
      hide KeyAvail, Active, Elapsed, LuaCharge, Decayed, Granted, Retry, ChargedTat, LuaTat, NumOr, ScoresOf,
        LuaRegister;
      ghost var r := LuaReads(db, g, now);
      var avail, wid, reset, expires, tat, prev, cur, limit, f := KeyLeft(g, now);
      var pwid, preset := 0, 0;
      var parentBinds := false;
      if g.parentKey != "" {
        pwid := WindowOf(now, g.pwin);
        preset := (pwid + 1) * g.pwin - now;
        var pavail := g.plimit - NumOr(db, Counter(g.parentKey, pwid), 0, now);
        if pavail < avail {
          avail, parentBinds := pavail, true;
        }
        if preset < expires {
          expires := preset;
        }
      }
      var n := 1;
      if g.edge != "" && avail < 64 * g.target {
        n := Register(g, now);
      }
      if avail <= 0 {
        var retry := RetryAfter(g, r, now, parentBinds, preset, reset, tat, prev, cur, limit, f);
        if g.algo == TokenBucket {
          reset := tat - now;
        }
        return Reply(0, 0, wid, expires, reset, retry, n, pwid);
      }
      var grant := Split(g, r, avail, n);
      reset := Charge(g, grant, tat, r.tat, now);
      return Reply(grant, avail - grant, wid, expires, reset, 0, n, pwid);
    }

    method CreditCounterKey(k: Key, tokens: int, ttl: int, now: int)
      modifies this
      ensures db == LuaCredit(old(db), k, tokens, ttl, now)
    {
      var used := NumOr(db, k, 0, now);
      var c := tokens;
      if c > used {
        c := used;
      }
      if c != 0 {
        db := IncrBy(db, k, -c, now);
        db := PExpire(db, k, ttl, now);
      }
    }

    /** The return script, for one item; it reports whether the item was applied. */
    method Return(r: ReturnInput, now: int) returns (applied: bool)
      requires WellFormedReturn(r)
      modifies this
      ensures db == LuaReturn(old(db), r, now)
      ensures applied <==> r.dedupe == "" || !Live(old(db), ReturnId(r.key, r.dedupe), now)
    {
      hide LuaCredit, Interval, Worth;
      if r.dedupe != "" {
        var id := ReturnId(r.key, r.dedupe);
        if Live(db, id, now) {
          return false;
        }
        db := SetPx(db, id, 1, r.dedupeTtl, now);
      }
      if r.algo == TokenBucket {
        var t := Interval(r.rate);
        var tat := NumOr(db, Tat(r.key), now, now);
        if tat < now {
          tat := now;
        }
        tat := Ceil(tat as real - Worth(r.tokens, t));
        if tat < now {
          tat := now;
        }
        db := SetPx(db, Tat(r.key), tat, tat - now + 1000, now);
      } else if WindowOf(now, r.win) == r.wid {
        CreditCounterKey(Counter(r.key, r.wid), r.tokens, 2 * r.win + 1000, now);
      }
      if r.parentKey != "" && WindowOf(now, r.pwin) == r.pwid {
        CreditCounterKey(Counter(r.parentKey, r.pwid), r.tokens, 2 * r.pwin + 1000, now);
      }
      return true;
    }

    /** The lend script. */
    method Lend(x: Transfer, base: int, margin: int, now: int) returns (give: int)
      requires 0 < x.win
      modifies this
      ensures give == LuaLent(old(db), x, base, margin, now)
      ensures db == LuaLend(old(db), x, base, margin, now)
    {
      if WindowOf(now, x.win) != x.wid {
        return 0;
      }
      var idk := LendId(x.key, x.id);
      var prev := GetNum(db, idk, now);
      if prev.Some? {
        return prev.value;
      }
      var ak := Alloc(x.key, x.wid);
      var alloc := base + NumOr(db, ak, 0, now);
      var used := NumOr(db, Counter(x.key, x.wid), 0, now);
      var elapsed := now - x.wid * x.win;
      var keep := Max(margin, Ceil((used * (x.win - elapsed)) as real / Max(elapsed, 1) as real));
      give := Min(x.amount, alloc - used - keep);
      if give < 0 {
        give := 0;
      }
      assert give == LuaLent(db, x, base, margin, now);
      hide LuaLent;
      if give > 0 {
        db := IncrBy(db, ak, -give, now);
        db := PExpire(db, ak, 2 * x.win + 1000, now);
      }
      db := SetPx(db, idk, give, 2 * x.win + 1000, now);
    }

    /** The credit script. */
    method Credit(x: Transfer, now: int) returns (ok: bool)
      requires 0 < x.win
      modifies this
      ensures ok == LuaCredits(old(db), x, now)
      ensures db == LuaCreditDb(old(db), x, now)
    {
      if WindowOf(now, x.win) != x.wid {
        return false;
      }
      var idk := CreditId(x.key, x.id);
      if Live(db, idk, now) {
        return false;
      }
      db := SetPx(db, idk, 1, 2 * x.win + 1000, now);
      var ak := Alloc(x.key, x.wid);
      db := IncrBy(db, ak, x.amount, now);
      db := PExpire(db, ak, 2 * x.win + 1000, now);
      return true;
    }
  }
}
