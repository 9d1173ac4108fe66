/**
 The arithmetic of one grant and one return, as a function of the numbers read from the store. Both
 ledgers are proved to compute exactly this; they differ in where the numbers come from.
 */
module Grants {
  import opened Numbers
  import opened Ledger

  /** What a grant reads: the bucket's TAT (now when it is missing or past), this window's allocation and counters, and
      the active edges. */
  datatype Reads = Reads(now: int, tat: int, alloc: int, cur: int, prev: int, pused: int, active: int)

  datatype Reply = Reply(
    granted: int, remaining: int, wid: int, expires: int, reset: int, retry: int, active: int, pwid: int)

  /** Milliseconds a bucket takes to refill one token. */
  function Interval(rate: real): (t: real)
    requires rate > 0.0
    ensures t > 0.0
  {
    1000.0 / rate
  }

  /** The time n tokens are worth in a bucket that takes t to refill one. */
  function Worth(n: int, t: real): real {
    n as real * t
  }

  lemma WorthAdds(a: int, b: int, t: real)
    ensures Worth(a + b, t) == Worth(a, t) + Worth(b, t)
  {}

  lemma WorthOfNone(t: real)
    ensures Worth(0, t) == 0.0
  {}

  /** A TAT in the past means a full bucket. */
  function EffectiveTat(tat: Option<int>, now: int): int {
    if tat.None? then now else Max(tat.value, now)
  }

  function BucketAvail(limit: int, t: real, tat: int, now: int): int
    requires t > 0.0
  {
    ((now as real + Worth(limit, t) - tat as real) / t).Floor
  }

  /** The elapsed fraction of the current window. */
  function Elapsed(now: int, win: int): real
    requires win > 0
  {
    (now - WindowOf(now, win) * win) as real / win as real
  }

  /** The share of the previous window's use that a window ending now still overlaps. */
  function Decayed(prev: int, now: int, win: int): int
    requires win > 0
  {
    Ceil(prev as real * (1.0 - Elapsed(now, win)))
  }

  function Capacity(g: GrantInput, alloc: int): int {
    if 0 <= g.allocBase then g.allocBase + alloc else g.limit
  }

  function Remainder(now: int, win: int): int
    requires win > 0
  {
    (WindowOf(now, win) + 1) * win - now
  }

  /** What the quota itself has left. */
  function KeyAvail(g: GrantInput, r: Reads): int
    requires WellFormed(g)
  {
    match g.algo
    case TokenBucket => BucketAvail(g.limit, Interval(g.rate), r.tat, r.now)
    case FixedWindow => Capacity(g, r.alloc) - r.cur
    case SlidingWindow => Capacity(g, r.alloc) - (r.cur + Decayed(r.prev, r.now, g.win))
  }

  predicate ParentBinds(g: GrantInput, r: Reads)
    requires WellFormed(g)
  {
    g.parentKey != "" && g.plimit - r.pused < KeyAvail(g, r)
  }

  /** What the quota and its parent both have left. */
  function Avail(g: GrantInput, r: Reads): int
    requires WellFormed(g)
  {
    if ParentBinds(g, r) then g.plimit - r.pused else KeyAvail(g, r)
  }

  /** Near the endgame an asking edge is registered and the rest is split between the active edges. */
  predicate Registers(g: GrantInput, r: Reads)
    requires WellFormed(g)
  {
    g.edge != "" && Avail(g, r) < 64 * g.target
  }

  function Sharers(g: GrantInput, r: Reads): int
    requires WellFormed(g)
  {
    if Registers(g, r) then r.active else 1
  }

  function Granted(g: GrantInput, r: Reads): (n: int)
    requires WellFormed(g) && 1 <= r.active
    ensures Avail(g, r) <= 0 ==> n == 0
  {
    var avail, n := Avail(g, r), Sharers(g, r);
    if avail <= 0 then 0
    else Min(if avail < n * g.target then (avail + n - 1) / n else g.target, avail)
  }

  /** Milliseconds until the decayed use of the previous window is down to room, at age f of this one. */
  function DecayWait(room: int, prev: int, f: real, win: int): int
    requires prev > 0
  {
    var need := 1.0 - room as real / prev as real;
    Ceil((need - f) * win as real)
  }

  /** When a denied edge should ask again. */
  function Retry(g: GrantInput, r: Reads): int
    requires WellFormed(g)
  {
    if ParentBinds(g, r) then
      Min(Max(g.pwin / 10, 500), Remainder(r.now, g.pwin))
    else if g.algo == TokenBucket then
      var t := Interval(g.rate);
      Max(Ceil(r.tat as real + t - Worth(g.limit, t) - r.now as real), 1)
    else if g.algo == SlidingWindow && r.prev > 0 && r.cur < g.limit then
      Min(Max(DecayWait(g.limit - 1 - r.cur, r.prev, Elapsed(r.now, g.win), g.win), 10), Remainder(r.now, g.win))
    else
      Min(Max(g.win / 10, 500), Remainder(r.now, g.win))
  }

  /** The bucket's TAT after granting n tokens. */
  function ChargedTat(rate: real, tat: int, n: int): int
    requires rate > 0.0
  {
    Ceil(tat as real + Worth(n, Interval(rate)))
  }

  function Outcome(g: GrantInput, r: Reads): (a: Reply)
    requires WellFormed(g) && 1 <= r.active
  {
    var avail, n := Avail(g, r), Granted(g, r);
    var life := if g.algo == TokenBucket then g.ttl else Remainder(r.now, g.win);
    Reply(
      n,
      if avail <= 0 then 0 else avail - n,
      if g.algo == TokenBucket then 0 else WindowOf(r.now, g.win),
      if g.parentKey != "" then Min(life, Remainder(r.now, g.pwin)) else life,
      if g.algo != TokenBucket then Remainder(r.now, g.win)
      else (if avail <= 0 then r.tat else ChargedTat(g.rate, r.tat, n)) - r.now,
      if avail <= 0 then Retry(g, r) else 0,
      Sharers(g, r),
      if g.parentKey != "" then WindowOf(r.now, g.pwin) else 0)
  }

  /** The bucket's TAT after n tokens came back: never before now. */
  function RefundedTat(rate: real, tat: int, n: int, now: int): int
    requires rate > 0.0
  {
    Max(Ceil(tat as real - Worth(n, Interval(rate))), now)
  }

  /** A window counter after n tokens came back: never below zero, and raised by debt. */
  function Credited(used: int, n: int): int {
    used - Min(n, used)
  }

  /** What a region must keep: the asked margin, or its use so far projected over the rest of the window. */
  function Kept(used: int, now: int, win: int, margin: int): int
    requires win > 0
  {
    var elapsed := now - WindowOf(now, win) * win;
    Max(margin, Ceil((used * (win - elapsed)) as real / Max(elapsed, 1) as real))
  }

  function Given(want: int, alloc: int, used: int, kept: int): int {
    Max(Min(want, alloc - used - kept), 0)
  }

  // The two steps of a grant that only compute, as both ledgers write them.

  /** When a denied edge should ask again. */
  method RetryAfter(g: GrantInput, ghost r: Reads, now: int, parentBinds: bool, preset: int, reset: int, tat: int,
                    prev: int, cur: int, limit: int, f: real) returns (retry: int)
    requires WellFormed(g) && now == r.now && parentBinds == ParentBinds(g, r)
    requires parentBinds ==> preset == Remainder(r.now, g.pwin)
    requires g.algo == TokenBucket ==> tat == r.tat && limit == g.limit
    requires g.algo != TokenBucket ==> reset == Remainder(r.now, g.win) && cur == r.cur
    requires g.algo == SlidingWindow ==> prev == r.prev && f == Elapsed(r.now, g.win) && limit == g.limit
    ensures retry == Retry(g, r)
  {
    hide ParentBinds, Remainder, Elapsed;
    if parentBinds {
      retry := Min(Max(g.pwin / 10, 500), preset);
    } else if g.algo == TokenBucket {
      var t := Interval(g.rate);
      retry := Max(Ceil(tat as real + t - Worth(limit, t) - now as real), 1);
    } else if g.algo == SlidingWindow && prev > 0 && cur < limit {
      var fneed := 1.0 - (limit - 1 - cur) as real / prev as real;
      retry := Min(Max(Ceil((fneed - f) * g.win as real), 10), reset);
    } else {
      retry := Min(Max(g.win / 10, 500), reset);
    }
  }

  /** How much of what is left to grant, with n edges sharing it. */
  method Split(g: GrantInput, ghost r: Reads, avail: int, n: int) returns (grant: int)
    requires WellFormed(g) && 1 <= r.active
    requires avail == Avail(g, r) && n == Sharers(g, r) && 0 < avail
    ensures grant == Granted(g, r)
  {
    hide Avail, Sharers;
    var target := g.target;
    if avail < n * target {
      target := (avail + n - 1) / n;
    }
    grant := Min(target, avail);
  }
}
